/** The replay reproduces the run that recorded its tape, and the V1 rules replayed over that tape
    reproduce the run that V1 would have made. Columns may round: stored entry prices and
    realized P&L are each off by at most `row`, stored opens by at most `open`. Order, quantities
    and row counts agree exactly; prices and P&L agree up to those errors, hence exactly when
    nothing is rounded. */
module Counterfactual {
  import opened Trading
  import opened Lots
  import opened RiskGate
  import opened Ledger
  import opened Engine
  import opened Replay

  /** Error allowed per share in an entry price, per share in a sale price, and per CLOSED row. */
  datatype Errors = Errors(entry: real, fill: real, row: real)

  predicate NearLots(a: seq<Lot>, b: seq<Lot>, entry: real) {
    && |a| == |b|
    && forall i :: 0 <= i < |a| ==> a[i].quantity == b[i].quantity && -entry <= a[i].entry - b[i].entry <= entry
  }

  predicate Near(a: real, b: real, bound: real) {
    -bound <= a - b <= bound
  }

  predicate Coupled(b: Book, s: State, e: Errors) {
    && NearLots(b.lots, s.lots, e.entry)
    && b.closed == s.closed
    && Near(b.realized, s.realized, Worth(e.entry + e.fill, b.closedShares) + Worth(e.row, b.closed))
  }

  lemma {:induction false} NearLotsHoldTheSame(a: seq<Lot>, b: seq<Lot>, entry: real)
    requires NearLots(a, b, entry)
    ensures Held(a) == Held(b)
    ensures Positive(a) <==> Positive(b)
  {
    if a != [] {
      NearLotsHoldTheSame(a[1..], b[1..], entry);
    }
  }

  lemma NonNegativeProduct(x: real, y: real)
    requires x >= 0.0 && y >= 0.0
    ensures x * y >= 0.0
  {
  }

  lemma Expand(x: real, y: real, t: real, q: real)
    ensures (t - (x - y)) * q == t * q - (x * q - y * q)
    ensures (t + (x - y)) * q == t * q + (x * q - y * q)
  {
  }

  lemma PnlDrift(pa: real, ea: real, pb: real, eb: real, q: nat, entry: real, fill: real)
    requires Near(pa, pb, fill) && Near(ea, eb, entry)
    ensures Near(Pnl(pa, ea, q), Pnl(pb, eb, q), Worth(entry + fill, q))
  {
    var x, y, t, n := pa - ea, pb - eb, entry + fill, q as real;
    NonNegativeProduct(t - (x - y), n);
    NonNegativeProduct(t + (x - y), n);
    Expand(x, y, t, n);
  }

  ghost predicate NearSales(a: Sale, b: Sale, n: int, e: Errors) {
    && NearLots(a.lots, b.lots, e.entry)
    && a.closed == b.closed
    && Near(a.realized, b.realized, Worth(e.entry + e.fill, n) + Worth(e.row, a.closed))
  }

  lemma RowDrift(pa: real, ea: real, pb: real, eb: real, q: nat, store: real -> real, e: Errors)
    requires Near(pa, pb, e.fill) && Near(ea, eb, e.entry)
    requires forall x :: Near(store(x), x, e.row)
    ensures Near(store(Pnl(pa, ea, q)), Pnl(pb, eb, q), Worth(e.entry + e.fill, q) + Worth(e.row, 1))
  {
    PnlDrift(pa, ea, pb, eb, q, e.entry, e.fill);
    assert Worth(e.row, 1) == e.row;
    hide Worth, Pnl;
    assert Near(store(Pnl(pa, ea, q)), Pnl(pa, ea, q), e.row);
  }

  /** Adding one row's P&L in front of two near sales. */
  lemma NearSalesExtend(a: Sale, b: Sale, n: int, e: Errors, q: int, x: real, y: real)
    requires NearSales(a, b, n, e) && Near(x, y, Worth(e.entry + e.fill, q) + Worth(e.row, 1))
    ensures NearSales(Sale(a.lots, x + a.realized, 1 + a.closed), Sale(b.lots, y + b.realized, 1 + b.closed), q + n, e)
  {
    WorthSplit(e.entry + e.fill, q, n);
    WorthSplit(e.row, 1, a.closed);
    hide Worth;
  }

  lemma SplitDrift(a: seq<Lot>, b: seq<Lot>, n: nat, e: Errors, x: real, y: real)
    requires NearLots(a, b, e.entry) && a != [] && n < a[0].quantity
    requires Near(x, y, Worth(e.entry + e.fill, n) + Worth(e.row, 1))
    ensures NearSales(Sale([Lot(a[0].quantity - n, a[0].entry)] + a[1..], x, 1),
                      Sale([Lot(b[0].quantity - n, b[0].entry)] + b[1..], y, 1), n, e)
  {
    hide Worth;
  }

  lemma NothingSold(a: seq<Lot>, b: seq<Lot>, pa: real, pb: real, store: real -> real, e: Errors)
    requires NearLots(a, b, e.entry)
    ensures NearSales(SellFifo(a, 0, pa, store), SellFifo(b, 0, pb, Exact), 0, e)
  {
    assert Worth(e.entry + e.fill, 0) == 0.0 && Worth(e.row, 0) == 0.0;
    hide Worth;
  }

  /** One sale on two near lists of lots, one of them through a rounding column. */
  lemma {:induction false} SaleDrift(a: seq<Lot>, b: seq<Lot>, n: nat, pa: real, pb: real, store: real -> real,
                                     e: Errors)
    requires NearLots(a, b, e.entry) && Positive(a) && n <= Held(a)
    requires Near(pa, pb, e.fill)
    requires forall x :: Near(store(x), x, e.row)
    ensures NearSales(SellFifo(a, n, pa, store), SellFifo(b, n, pb, Exact), n, e)
    decreases |a|
  {
    hide Worth, Pnl, SellFifo, NearSales;
    if n == 0 {
      NothingSold(a, b, pa, pb, store, e);
    } else {
      var q := Min(n, a[0].quantity);
      RowDrift(pa, a[0].entry, pb, b[0].entry, q, store, e);
      if n >= a[0].quantity {
        SaleOfWholeLot(a, n, pa, store);
        SaleOfWholeLot(b, n, pb, Exact);
        SaleDrift(a[1..], b[1..], n - q, pa, pb, store, e);
        NearSalesExtend(SellFifo(a[1..], n - q, pa, store), SellFifo(b[1..], n - q, pb, Exact), n - q, e, q,
                        store(Pnl(pa, a[0].entry, q)), Pnl(pb, b[0].entry, q));
      } else {
        SaleSplitsLot(a, n, pa, store);
        SaleSplitsLot(b, n, pb, Exact);
        SplitDrift(a, b, n, e, store(Pnl(pa, a[0].entry, q)), Pnl(pb, b[0].entry, q));
      }
    }
  }

  // ---------------------------------------------------------------- one day

  function Replayed(useVar: bool): Rules {
    if useVar then VAR_RULES else V1_RULES
  }

  function Handed(d: DayInput, useVar: bool): DayInput {
    if useVar then d else WithoutVar(d)
  }

  /** Behind the same position, the replay's gate trades exactly what the risk node lets through. */
  lemma GatesAgree(s: State, d: DayInput, useVar: bool, column: real -> real, bps: real)
    requires d.rawPrice.Some? && Sound(s)
    ensures
      var row := TapeRowOf(d, column);
      var r := RulingOf(Handed(d, useVar), Held(s.lots));
      match Executed(r.action, r.quantity)
      case None => !Gate(s, row, Replayed(useVar), bps).Trade?
      case Some(t) => Gate(s, row, Replayed(useVar), bps) == Trade(Fill(t.0, t.1, Slip(row.price, t.0, bps)))
  {
    GateIsFusedMin(d.proposal, Held(s.lots), Limit(Handed(d, useVar).risk));
    hide VarMaxQty, Slip;
  }

  /** What a fill multiplies the price by; negative for a SELL beyond 10000 basis points. */
  function SlipFactor(action: Action, bps: real): real {
    match action
    case BUY => 1.0 + bps / 10000.0
    case SELL => 1.0 - bps / 10000.0
    case HOLD => 1.0
  }

  function Abs(x: real): real {
    if x < 0.0 then -x else x
  }

  /** What an error in the price becomes in the fill. */
  function SlippedError(error: real, action: Action, bps: real): real {
    error * Abs(SlipFactor(action, bps))
  }

  lemma SlipDrift(p: real, q: real, action: Action, bps: real, open: real)
    requires Near(p, q, open)
    ensures Near(Slip(p, action, bps), Slip(q, action, bps), SlippedError(open, action, bps))
  {
    var m := SlipFactor(action, bps);
    assert Slip(p, action, bps) == p * m && Slip(q, action, bps) == q * m;
    hide SlipFactor, Slip;
    NearTimes(p, q, open, m);
  }

  lemma NearTimes(p: real, q: real, bound: real, m: real)
    requires Near(p, q, bound)
    ensures Near(p * m, q * m, bound * Abs(m))
  {
    var n := Abs(m);
    NonNegativeProduct(bound - (p - q), n);
    NonNegativeProduct(bound + (p - q), n);
    Expand(p, q, bound, n);
    assert p * n == p * m || p * n == -(p * m);
    assert q * n == q * m || q * n == -(q * m);
  }

  /** Errors the columns cause: a stored entry is rounded after a fill at a possibly rounded open. */
  function ColumnErrors(row: real, open: real, bps: real): Errors {
    Errors(row + SlippedError(open, BUY, bps), SlippedError(open, SELL, bps), row)
  }

  ghost predicate Columns(store: real -> real, column: real -> real, row: real, open: real) {
    && 0.0 <= row && 0.0 <= open
    && (forall x :: Near(store(x), x, row))
    && (forall x :: Near(column(x), x, open))
  }

  lemma PriceDrift(d: DayInput, action: Action, store: real -> real, column: real -> real, row: real, open: real,
                   bps: real)
    requires Columns(store, column, row, open) && d.rawPrice.Some?
    ensures
      var e := ColumnErrors(row, open, bps);
      var recorded, replayed := FillPrice(d, action, bps), Slip(TapeRowOf(d, column).price, action, bps);
      && (action == BUY ==> Near(store(recorded), replayed, e.entry))
      && (action == SELL ==> Near(recorded, replayed, e.fill))
  {
    var p := if d.open.Some? then d.open.value else d.rawPrice.value;
    var q := TapeRowOf(d, column).price;
    assert Near(column(p), p, open);
    hide Slip, SlippedError, Near, ColumnErrors;
    FillsDrift(p, q, store, row, open, bps);
  }

  lemma FillsDrift(p: real, q: real, store: real -> real, row: real, open: real, bps: real)
    requires Near(p, q, open) && forall x :: Near(store(x), x, row)
    ensures
      var e := ColumnErrors(row, open, bps);
      && Near(store(Slip(p, BUY, bps)), Slip(q, BUY, bps), e.entry)
      && Near(Slip(p, SELL, bps), Slip(q, SELL, bps), e.fill)
  {
    hide Slip, SlippedError, Near;
    SlipDrift(p, q, BUY, bps, open);
    SlipDrift(p, q, SELL, bps, open);
    NearTwice(store(Slip(p, BUY, bps)), Slip(p, BUY, bps), Slip(q, BUY, bps), row, SlippedError(open, BUY, bps));
  }

  lemma NearTwice(x: real, y: real, z: real, xy: real, yz: real)
    requires Near(x, y, xy) && Near(y, z, yz)
    ensures Near(x, z, xy + yz)
  {
  }

  lemma BuyStaysCoupled(b: Book, s: State, e: Errors, n: int, stored: real, fill: real)
    requires Coupled(b, s, e) && Near(stored, fill, e.entry)
    ensures Coupled(b.(lots := b.lots + [Lot(n, stored)]), Execute(s, Fill(BUY, n, fill)), e)
  {
    hide Worth;
  }

  lemma SellStaysCoupled(b: Book, s: State, e: Errors, n: nat, price: real, fill: real, store: real -> real)
    requires Coupled(b, s, e) && Positive(b.lots) && n <= Held(b.lots)
    requires Near(price, fill, e.fill)
    requires forall x :: Near(store(x), x, e.row)
    ensures Coupled(Sold(b, n, price, store), Execute(s, Fill(SELL, n, fill)), e)
  {
    SaleDrift(b.lots, s.lots, n, price, fill, store, e);
    WorthSplit(e.entry + e.fill, b.closedShares, n);
    WorthSplit(e.row, b.closed, SellFifo(b.lots, n, price, store).closed);
    hide Worth, SellFifo, NearLots;
  }

  lemma DayStaysCoupled(b: Book, s: State, d: DayInput, useVar: bool, store: real -> real, column: real -> real,
                        row: real, open: real, bps: real)
    requires Columns(store, column, row, open) && d.rawPrice.Some?
    requires Within(b) && Coupled(b, s, ColumnErrors(row, open, bps))
    ensures BookDay(b, Handed(d, useVar), bps, store).Some?
    ensures Coupled(BookDay(b, Handed(d, useVar), bps, store).value,
                    Step(s, TapeRowOf(d, column), Replayed(useVar), bps), ColumnErrors(row, open, bps))
  {
    var e, day, tape := ColumnErrors(row, open, bps), Handed(d, useVar), TapeRowOf(d, column);
    DayKeepsBookWithin(b, day, bps, store);
    NearLotsHoldTheSame(b.lots, s.lots, e.entry);
    var mid := AfterExit(s, tape, Replayed(useVar), bps);
    assert mid == s.(peak := MarkPeak(s, tape.price));
    GatesAgree(mid, d, useVar, column, bps);
    var r := RulingOf(day, Held(b.lots));
    PriceDrift(d, r.action, store, column, row, open, bps);
    hide Slip, ColumnErrors, Gate, RulingOf, Worth, NearLots, SellFifo;
    assert Coupled(b, mid, e);
    if r.action == BUY && r.quantity > 0 {
      BuyStaysCoupled(b, mid, e, r.quantity, store(FillPrice(day, BUY, bps)), Slip(tape.price, BUY, bps));
    } else if r.action == SELL && r.quantity > 0 {
      GateKeepsPositionInRange(day.proposal, Held(b.lots), day.risk);
      SellStaysCoupled(b, mid, e, r.quantity, FillPrice(day, SELL, bps), Slip(tape.price, SELL, bps), store);
    }
  }

  // ---------------------------------------------------------------- whole runs

  function AllHanded(days: seq<DayInput>, useVar: bool): seq<DayInput> {
    if days == [] then [] else AllHanded(days[..|days| - 1], useVar) + [Handed(days[|days| - 1], useVar)]
  }

  lemma {:induction false} HandedWithVar(days: seq<DayInput>)
    ensures AllHanded(days, true) == days
  {
    if days != [] {
      HandedWithVar(days[..|days| - 1]);
    }
  }

  lemma {:induction false} HandedWithoutVar(days: seq<DayInput>)
    ensures AllHanded(days, false) == AllWithoutVar(days)
  {
    if days != [] {
      HandedWithoutVar(days[..|days| - 1]);
      assert AllWithoutVar(days)[..|days| - 1] == AllWithoutVar(days[..|days| - 1]);
    }
  }

  lemma BookRunAppend(days: seq<DayInput>, d: DayInput, bps: real, store: real -> real)
    requires BookRun(days, bps, store).Some?
    ensures BookRun(days + [d], bps, store) == BookDay(BookRun(days, bps, store).value, d, bps, store)
  {
    hide BookDay;
    assert (days + [d])[..|days|] == days;
  }

  /** A run, with or without VaR, and the replay of the tape recorded by the VaR run, under the
      matching rules: same lots in order and quantity, same number of CLOSED rows, entry prices
      and realized P&L within the column errors. */
  lemma {:induction false} ReplayFollowsRun(days: seq<DayInput>, useVar: bool, store: real -> real,
                                            column: real -> real, row: real, open: real, bps: real)
    requires Columns(store, column, row, open)
    ensures BookRun(AllHanded(days, useVar), bps, store).Some?
    ensures Coupled(BookRun(AllHanded(days, useVar), bps, store).value,
                    Run(TapeOf(days, column), Replayed(useVar), bps), ColumnErrors(row, open, bps))
  {
    if days == [] {
      NonNegativeProduct(open, Abs(SlipFactor(BUY, bps)));
      EmptyRunsCoupled(ColumnErrors(row, open, bps));
    } else {
      hide Coupled, ColumnErrors, Columns, BookRun, Run;
      var prefix, last := days[..|days| - 1], days[|days| - 1];
      ReplayFollowsRun(prefix, useVar, store, column, row, open, bps);
      RunStaysWithin(AllHanded(prefix, useVar), bps, store);
      BookRunAppend(AllHanded(prefix, useVar), Handed(last, useVar), bps, store);
      hide Step, RulingOf, Handed, Within;
      if last.rawPrice.Some? {
        hide BookDay;
        RunAppend(TapeOf(prefix, column), TapeRowOf(last, column), Replayed(useVar), bps);
        DayStaysCoupled(BookRun(AllHanded(prefix, useVar), bps, store).value,
                        Run(TapeOf(prefix, column), Replayed(useVar), bps),
                        last, useVar, store, column, row, open, bps);
      } else {
        PricelessDayIsNoDay(BookRun(AllHanded(prefix, useVar), bps, store).value, last, useVar, bps, store);
        hide BookDay;
        assert TapeOf(days, column) == TapeOf(prefix, column);
      }
    }
  }

  lemma PricelessDayIsNoDay(b: Book, d: DayInput, useVar: bool, bps: real, store: real -> real)
    requires d.rawPrice.None?
    ensures BookDay(b, Handed(d, useVar), bps, store) == Some(b)
  {
  }

  lemma EmptyRunsCoupled(e: Errors)
    requires 0.0 <= e.entry
    ensures Coupled(EMPTY_BOOK, START, e)
  {
    assert Worth(e.entry + e.fill, 0) == 0.0 && Worth(e.row, 0) == 0.0;
  }

  /** Columns that keep every value as it is. */
  ghost predicate ExactColumns(store: real -> real, column: real -> real) {
    forall x :: store(x) == x && column(x) == x
  }

  lemma ExactRunsAgree(days: seq<DayInput>, useVar: bool, bps: real, store: real -> real, column: real -> real)
    requires ExactColumns(store, column)
    ensures BookRun(AllHanded(days, useVar), bps, store).Some?
    ensures
      var run := BookRun(AllHanded(days, useVar), bps, store).value;
      var replay := Run(TapeOf(days, column), Replayed(useVar), bps);
      run.lots == replay.lots && run.realized == replay.realized && run.closed == replay.closed
  {
    ReplayFollowsRun(days, useVar, store, column, 0.0, 0.0, bps);
    ErrorsOfExactOpens(0.0, bps);
    hide BookRun, Run, ColumnErrors, Coupled;
    NoErrorsAgree(BookRun(AllHanded(days, useVar), bps, store).value, Run(TapeOf(days, column), Replayed(useVar), bps));
  }

  lemma ErrorsOfExactOpens(row: real, bps: real)
    ensures ColumnErrors(row, 0.0, bps) == Errors(row, 0.0, row)
  {
    hide SlipFactor, Abs;
  }

  lemma NoErrorsAgree(b: Book, s: State)
    requires Coupled(b, s, Errors(0.0, 0.0, 0.0))
    ensures b.lots == s.lots && b.realized == s.realized && b.closed == s.closed
  {
    assert Worth(0.0, b.closedShares) == 0.0 && Worth(0.0, b.closed) == 0.0;
    hide Worth;
    forall i | 0 <= i < |b.lots| ensures b.lots[i] == s.lots[i] {
      assert b.lots[i].quantity == s.lots[i].quantity && b.lots[i].entry == s.lots[i].entry;
    }
  }

  /** THE REPLAY GATE. With exact columns, replaying the tape under the VaR limit ends with the
      run's own open lots, realized P&L and number of CLOSED rows. */
  lemma ReplayReproducesRun(days: seq<DayInput>, bps: real, store: real -> real, column: real -> real)
    requires ExactColumns(store, column)
    ensures BookRun(days, bps, store).Some?
    ensures
      var run, replay := BookRun(days, bps, store).value, Run(TapeOf(days, column), VAR_RULES, bps);
      run.lots == replay.lots && run.realized == replay.realized && run.closed == replay.closed
  {
    ExactRunsAgree(days, true, bps, store, column);
    HandedWithVar(days);
  }

  /** THE COUNTERFACTUAL. The V1 rules replayed over the VaR run's tape end with the lots, realized
      P&L and CLOSED rows of a run over the same days whose risk node had no price source. */
  lemma V1ReplayIsTheV1Run(days: seq<DayInput>, bps: real, store: real -> real, column: real -> real)
    requires ExactColumns(store, column)
    ensures BookRun(AllWithoutVar(days), bps, store).Some?
    ensures
      var run, replay := BookRun(AllWithoutVar(days), bps, store).value, Run(TapeOf(days, column), V1_RULES, bps);
      run.lots == replay.lots && run.realized == replay.realized && run.closed == replay.closed
  {
    ExactRunsAgree(days, false, bps, store, column);
    HandedWithoutVar(days);
  }

  // ---------------------------------------------------------------- the drift gate

  /** What the recorded rows say the run is worth: realized P&L plus open shares at the last price
      less their cost. */
  function RecordedValue(b: Book, last: real): real {
    b.realized + if Held(b.lots) != 0 then Worth(last, Held(b.lots)) - Cost(b.lots) else 0.0
  }

  lemma {:induction false} UnrealizedIsWorthLessCost(lots: seq<Lot>, last: real)
    ensures Unrealized(lots, last) == Worth(last, Held(lots)) - Cost(lots)
  {
    if lots != [] {
      UnrealizedIsWorthLessCost(lots[1..], last);
      WorthSplit(last, lots[0].quantity, Held(lots[1..]));
      PnlIsWorth(last, lots[0].entry, lots[0].quantity);
      assert Worth(lots[0].entry, lots[0].quantity) == lots[0].entry * lots[0].quantity as real;
      hide Worth, Pnl;
    }
  }

  lemma RecordedIsMarked(b: Book, last: real)
    requires Positive(b.lots)
    ensures RecordedValue(b, last) == b.realized + Unrealized(b.lots, last)
  {
    UnrealizedIsWorthLessCost(b.lots, last);
    HeldNonNegative(b.lots);
    hide Worth;
  }

  lemma {:induction false} UnrealizedDrift(a: seq<Lot>, b: seq<Lot>, entry: real, last: real)
    requires NearLots(a, b, entry) && Positive(a)
    ensures Near(Unrealized(a, last), Unrealized(b, last), Worth(entry, Held(a)))
  {
    if a == [] {
      assert Worth(entry, 0) == 0.0;
    } else {
      UnrealizedDrift(a[1..], b[1..], entry, last);
      PnlDrift(last, a[0].entry, last, b[0].entry, a[0].quantity, entry, 0.0);
      WorthSplit(entry, a[0].quantity, Held(a[1..]));
      assert entry + 0.0 == entry;
      hide Worth, Pnl;
    }
  }

  /** THE DRIFT BOUND. Recorded and replayed mark-to-market differ by at most the entry error per
      share bought, the sale-price error per share sold, and the row error per CLOSED row: for a run
      with the VaR budget replayed under it, and for a V1 run replayed plainly. */
  lemma DriftIsBounded(days: seq<DayInput>, useVar: bool, store: real -> real, column: real -> real, row: real,
                       open: real, bps: real, last: real)
    requires Columns(store, column, row, open)
    ensures BookRun(AllHanded(days, useVar), bps, store).Some?
    ensures
      var handed, e := AllHanded(days, useVar), ColumnErrors(row, open, bps);
      var run := BookRun(handed, bps, store).value;
      Near(RecordedValue(run, last), MarkToMarket(Run(TapeOf(days, column), Replayed(useVar), bps), last),
           Worth(e.entry, Bought(handed, bps, store)) + Worth(e.fill, run.closedShares) + Worth(e.row, run.closed))
  {
    var handed, e := AllHanded(days, useVar), ColumnErrors(row, open, bps);
    hide *;
    ReplayFollowsRun(days, useVar, store, column, row, open, bps);
    BoughtAreHeldOrClosed(handed, bps, store);
    var run, s := BookRun(handed, bps, store).value, Run(TapeOf(days, column), Replayed(useVar), bps);
    CoupledDrift(run, s, e, Bought(handed, bps, store), last);
  }

  lemma BoughtAreHeldOrClosed(days: seq<DayInput>, bps: real, store: real -> real)
    ensures BookRun(days, bps, store).Some?
    ensures
      var run := BookRun(days, bps, store).value;
      Positive(run.lots) && Held(run.lots) + run.closedShares == Bought(days, bps, store)
  {
    hide BookRun, Bought;
    RunStaysWithin(days, bps, store);
  }

  lemma CoupledDrift(b: Book, s: State, e: Errors, bought: int, last: real)
    requires Coupled(b, s, e) && Positive(b.lots) && Held(b.lots) + b.closedShares == bought
    ensures Near(RecordedValue(b, last), MarkToMarket(s, last),
                 Worth(e.entry, bought) + Worth(e.fill, b.closedShares) + Worth(e.row, b.closed))
  {
    RecordedIsMarked(b, last);
    UnrealizedDrift(b.lots, s.lots, e.entry, last);
    WorthSplit(e.entry, Held(b.lots), b.closedShares);
    WorthAdds(e.entry, e.fill, b.closedShares);
    hide Worth, NearLots, RecordedValue, Unrealized;
  }

  lemma WorthAdds(x: real, y: real, q: int)
    ensures Worth(x + y, q) == Worth(x, q) + Worth(y, q)
  {
  }

  /** NUMERIC(12, 4): four decimals, halves away from zero. */
  function Numeric4(x: real): real {
    if x >= 0.0 then (x * 10000.0 + 0.5).Floor as real / 10000.0
    else -((-x * 10000.0 + 0.5).Floor as real / 10000.0)
  }

  lemma Numeric4IsNear(x: real)
    ensures Near(Numeric4(x), x, 0.00005)
  {
    var y := if x >= 0.0 then x * 10000.0 + 0.5 else -x * 10000.0 + 0.5;
    assert y - 1.0 < y.Floor as real <= y;
  }

  /** Every open has at most four decimals, so that the open column keeps it. */
  ghost predicate OpensFitColumn(days: seq<DayInput>) {
    forall i :: 0 <= i < |days| && days[i].open.Some? ==> Numeric4(days[i].open.value) == days[i].open.value
  }

  lemma {:induction false} FittingOpensAreKept(days: seq<DayInput>)
    requires OpensFitColumn(days)
    ensures TapeOf(days, Numeric4) == TapeOf(days, Exact)
  {
    if days != [] {
      FittingOpensAreKept(days[..|days| - 1]);
      hide Numeric4, Limit;
    }
  }

  /** The 0.05 threshold of the replay check can only be passed for a reason other than storage
      rounding, as long as opens have at most four decimals and the shares bought and CLOSED rows
      together number at most 1000. */
  lemma GatePassesSmallRuns(days: seq<DayInput>, useVar: bool, bps: real, last: real)
    requires OpensFitColumn(days)
    requires BookRun(AllHanded(days, useVar), bps, Numeric4).Some? ==>
               Bought(AllHanded(days, useVar), bps, Numeric4)
               + BookRun(AllHanded(days, useVar), bps, Numeric4).value.closed <= 1000
    ensures BookRun(AllHanded(days, useVar), bps, Numeric4).Some?
    ensures Near(RecordedValue(BookRun(AllHanded(days, useVar), bps, Numeric4).value, last),
                 MarkToMarket(Run(TapeOf(days, Numeric4), Replayed(useVar), bps), last), 0.05)
  {
    hide *;
    Numeric4Columns();
    FittingOpensAreKept(days);
    DriftIsBounded(days, useVar, Numeric4, Exact, 0.00005, 0.0, bps, last);
    ErrorsOfExactOpens(0.00005, bps);
    var handed := AllHanded(days, useVar);
    var run, bought := BookRun(handed, bps, Numeric4).value, Bought(handed, bps, Numeric4);
    SmallWorth(bought, run.closed, run.closedShares);
    NearWithin(RecordedValue(run, last), MarkToMarket(Run(TapeOf(days, Exact), Replayed(useVar), bps), last),
               Worth(0.00005, bought) + Worth(0.0, run.closedShares) + Worth(0.00005, run.closed), 0.05);
  }

  lemma Numeric4Columns()
    ensures Columns(Numeric4, Exact, 0.00005, 0.0)
  {
    forall x ensures Near(Numeric4(x), x, 0.00005) { Numeric4IsNear(x); }
    hide Numeric4;
  }

  lemma SmallWorth(bought: int, closed: int, sold: int)
    requires bought + closed <= 1000
    ensures Worth(0.00005, bought) + Worth(0.0, sold) + Worth(0.00005, closed) <= 0.05
  {
    WorthSplit(0.00005, bought, closed);
  }

  lemma NearWithin(a: real, b: real, small: real, bound: real)
    requires Near(a, b, small) && small <= bound
    ensures Near(a, b, bound)
  {
  }
}
