/** One symbol's backtest, day by day: gate the proposal against the held position, fill it, book
    it; and the tape such a run leaves behind for the offline replay. */
module Engine {
  import opened Trading
  import opened Lots
  import opened RiskGate
  import opened Ledger
  import Replay

  /** What a day hands to the risk node and the ledger. Nothing here depends on the position:
      the Portfolio Manager sees only the two analysts' opinions. `rawPrice` is the analyst's
      current price, absent with too few bars; `open` is the day's opening price, if the run
      fills at opens. */
  datatype DayInput = DayInput(day: int, proposal: Proposal, rawPrice: Option<real>, open: Option<real>, risk: VarInput)

  function RulingOf(d: DayInput, held: int): Ruling {
    Decide(d.proposal, held, Limit(d.risk))
  }

  function FillPrice(d: DayInput, action: Action, bps: real): real
    requires d.rawPrice.Some?
  {
    Slip(if d.open.Some? then d.open.value else d.rawPrice.value, action, bps)
  }

  /** None is the ledger's refusal to oversell, which aborts the day. */
  function BookDay(b: Book, d: DayInput, bps: real, store: real -> real): Option<Book> {
    var r := RulingOf(d, Held(b.lots));
    if d.rawPrice.None? || r.quantity == 0 then Some(b)
    else BookTrade(b, r.action, r.quantity, FillPrice(d, r.action, bps), store)
  }

  function BookRun(days: seq<DayInput>, bps: real, store: real -> real): Option<Book> {
    if days == [] then Some(EMPTY_BOOK)
    else
      var before := BookRun(days[..|days| - 1], bps, store);
      if before.None? then None else BookDay(before.value, days[|days| - 1], bps, store)
  }

  /** The same day, handed to a risk node without a price source. */
  function WithoutVar(d: DayInput): DayInput {
    d.(risk := NoPriceSource)
  }

  function AllWithoutVar(days: seq<DayInput>): seq<DayInput> {
    seq(|days|, i requires 0 <= i < |days| => WithoutVar(days[i]))
  }

  // ---------------------------------------------------------------- the tape

  /** The tape row of a day with a price: the proposal as recorded, the stored open or else the
      analyst's price, and the recorded share limit. `column` is what the price column keeps. */
  function TapeRowOf(d: DayInput, column: real -> real): Replay.TapeRow
    requires d.rawPrice.Some?
  {
    Replay.TapeRow(d.day, d.proposal.action, Some(d.proposal.quantity),
                   if d.open.Some? then column(d.open.value) else d.rawPrice.value,
                   Limit(d.risk))
  }

  function TapeOf(days: seq<DayInput>, column: real -> real): seq<Replay.TapeRow> {
    if days == [] then []
    else
      var last := days[|days| - 1];
      TapeOf(days[..|days| - 1], column) + if last.rawPrice.Some? then [TapeRowOf(last, column)] else []
  }

  // ---------------------------------------------------------------- safety of the run

  ghost predicate Within(b: Book) {
    Positive(b.lots) && 0 <= Held(b.lots) <= MAX_POSITION_QTY && 0 <= b.closedShares
  }

  /** Shares a day's fill adds to (or takes from) the position. */
  function Change(d: DayInput, held: int): int {
    var trade := Executed(RulingOf(d, held).action, RulingOf(d, held).quantity);
    if d.rawPrice.None? || trade.None? then 0
    else if trade.value.0 == BUY then trade.value.1
    else -trade.value.1
  }

  /** Behind the gate the ledger never refuses, the position stays within the cap, and every
      share bought is either still open or in a CLOSED row. */
  lemma DayKeepsBookWithin(b: Book, d: DayInput, bps: real, store: real -> real)
    requires Within(b)
    ensures BookDay(b, d, bps, store).Some?
    ensures
      var after, change := BookDay(b, d, bps, store).value, Change(d, Held(b.lots));
      && Within(after)
      && Held(after.lots) == Held(b.lots) + change
      && Held(after.lots) + after.closedShares == Held(b.lots) + b.closedShares + (if change > 0 then change else 0)
  {
    var held := Held(b.lots);
    var r := RulingOf(d, held);
    GateIsFusedMin(d.proposal, held, Limit(d.risk));
    GateKeepsPositionInRange(d.proposal, held, d.risk);
    if d.rawPrice.Some? && r.action == BUY && r.quantity > 0 {
      HeldConcat(b.lots, [Lot(r.quantity, store(FillPrice(d, BUY, bps)))]);
    } else if d.rawPrice.Some? && r.action == SELL && r.quantity > 0 {
      SaleDropsOldestShares(b.lots, r.quantity, FillPrice(d, SELL, bps), store);
    }
  }

  /** Shares bought over a run. */
  function Bought(days: seq<DayInput>, bps: real, store: real -> real): int {
    if days == [] then 0
    else
      var prefix := days[..|days| - 1];
      var change := if BookRun(prefix, bps, store).None? then 0
                    else Change(days[|days| - 1], Held(BookRun(prefix, bps, store).value.lots));
      Bought(prefix, bps, store) + if change > 0 then change else 0
  }

  lemma {:induction false} RunStaysWithin(days: seq<DayInput>, bps: real, store: real -> real)
    ensures BookRun(days, bps, store).Some?
    ensures
      var b := BookRun(days, bps, store).value;
      Within(b) && Held(b.lots) + b.closedShares == Bought(days, bps, store)
  {
    if days != [] {
      var prefix := days[..|days| - 1];
      RunStaysWithin(prefix, bps, store);
      DayKeepsBookWithin(BookRun(prefix, bps, store).value, days[|days| - 1], bps, store);
    }
  }
}
