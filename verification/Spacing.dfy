/** What the spacing rule does on a tape, and to a position's first buy. */
module Spacing {
  import opened Trading
  import opened Lots
  import opened Dates
  import opened Replay

  lemma WaitingUnblocks(today: int, later: int, lastBuy: Option<int>, minDays: Option<int>)
    requires today <= later && !BlockedBySpacing(today, lastBuy, minDays)
    ensures !BlockedBySpacing(later, lastBuy, minDays)
  {
    if lastBuy.Some? {
      WeekdaysMonotone(lastBuy.value, today, later);
    }
  }

  /** Row i of the tape ends in a purchase. */
  predicate Buys(tape: seq<TapeRow>, i: nat, rules: Rules, bps: real)
    requires i < |tape|
  {
    var gate := Gate(AfterExit(Run(tape[..i], rules, bps), tape[i], rules, bps), tape[i], rules, bps);
    gate.Trade? && gate.fill.action == BUY
  }

  /** Row i is the latest purchase of the tape. */
  ghost predicate LatestAt(tape: seq<TapeRow>, i: int, rules: Rules, bps: real) {
    && 0 <= i < |tape| && Buys(tape, i, rules, bps)
    && forall j :: i < j < |tape| ==> !Buys(tape, j, rules, bps)
  }

  /** `last` is the day of the latest purchase of the tape, if there is any. */
  ghost predicate IsLatestBuy(last: Option<int>, tape: seq<TapeRow>, rules: Rules, bps: real) {
    match last
    case None => forall i :: 0 <= i < |tape| ==> !Buys(tape, i, rules, bps)
    case Some(day) => exists i :: LatestAt(tape, i, rules, bps) && tape[i].day == day
  }

  lemma BuysInPrefix(tape: seq<TapeRow>, n: nat, i: nat, rules: Rules, bps: real)
    requires i < n <= |tape|
    ensures Buys(tape[..n], i, rules, bps) == Buys(tape, i, rules, bps)
  {
    assert tape[..n][..i] == tape[..i];
  }

  lemma StepMarksBuys(s: State, row: TapeRow, rules: Rules, bps: real)
    ensures
      var gate := Gate(AfterExit(s, row, rules, bps), row, rules, bps);
      Step(s, row, rules, bps).lastBuy == if gate.Trade? && gate.fill.action == BUY then Some(row.day) else s.lastBuy
  {
  }

  /** The day the replay remembers is that of the tape's latest purchase, whatever was closed since. */
  lemma {:induction false} LastBuyIsLatest(tape: seq<TapeRow>, rules: Rules, bps: real)
    ensures IsLatestBuy(Run(tape, rules, bps).lastBuy, tape, rules, bps)
  {
    if tape != [] {
      var n := |tape| - 1;
      LastBuyIsLatest(tape[..n], rules, bps);
      StepMarksBuys(Run(tape[..n], rules, bps), tape[n], rules, bps);
      assert Run(tape, rules, bps) == Step(Run(tape[..n], rules, bps), tape[n], rules, bps);
      hide Step, AfterExit, Gate, IsLatestBuy;
      LatestExtends(tape, n, Run(tape[..n], rules, bps).lastBuy, Run(tape, rules, bps).lastBuy, rules, bps);
    }
  }

  lemma LatestExtends(tape: seq<TapeRow>, n: nat, before: Option<int>, after: Option<int>, rules: Rules, bps: real)
    requires |tape| == n + 1 && IsLatestBuy(before, tape[..n], rules, bps)
    requires after == if Buys(tape, n, rules, bps) then Some(tape[n].day) else before
    ensures IsLatestBuy(after, tape, rules, bps)
  {
    hide Buys;
    forall i | 0 <= i < n ensures Buys(tape[..n], i, rules, bps) == Buys(tape, i, rules, bps) {
      BuysInPrefix(tape, n, i, rules, bps);
    }
    if Buys(tape, n, rules, bps) {
      assert LatestAt(tape, n, rules, bps);
    } else if before.Some? {
      var i :| LatestAt(tape[..n], i, rules, bps) && tape[..n][i].day == before.value;
      assert LatestAt(tape, i, rules, bps);
    }
  }

  ghost predicate DaysIncrease(tape: seq<TapeRow>) {
    forall i, j :: 0 <= i < j < |tape| ==> tape[i].day < tape[j].day
  }

  /** Some purchase of the tape, of the open position or of a closed one, lies fewer than `minDays`
      weekdays before `today`. */
  ghost predicate BoughtRecently(tape: seq<TapeRow>, today: int, minDays: int, rules: Rules, bps: real) {
    exists i :: 0 <= i < |tape| && Buys(tape, i, rules, bps) && WeekdaysBetween(tape[i].day, today) < minDays
  }

  /** The rule looks at the latest purchase only; it stands for all of them. */
  lemma BlockedExactlyWhenBoughtRecently(tape: seq<TapeRow>, today: int, rules: Rules, bps: real)
    requires DaysIncrease(tape)
    ensures BlockedBySpacing(today, Run(tape, rules, bps).lastBuy, rules.minDays)
       <==> rules.minDays.Some? && BoughtRecently(tape, today, rules.minDays.value, rules, bps)
  {
    LastBuyIsLatest(tape, rules, bps);
    var last := Run(tape, rules, bps).lastBuy;
    hide Run, Buys, WeekdaysBetween;
    if rules.minDays.Some? && last.Some? {
      var i :| LatestAt(tape, i, rules, bps) && tape[i].day == last.value;
      forall j | 0 <= j < |tape| && Buys(tape, j, rules, bps)
        ensures WeekdaysBetween(last.value, today) <= WeekdaysBetween(tape[j].day, today)
      {
        assert j <= i;
        WeekdaysShrink(tape[j].day, tape[i].day, today);
      }
    }
  }

  lemma BuyWhenFlat(s: State, row: TapeRow, rules: Rules, bps: real)
    requires s.lots == [] && row.action == BUY && Quantity(row) > 0
    ensures
      var next := AfterGate(s, row, rules, bps);
      var refused := BlockedBySpacing(row.day, s.lastBuy, rules.minDays)
                     || (RowLimit(row, rules).Some? && RowLimit(row, rules).value <= 0);
      && (next.lots == [] <==> refused)
      && next.blocked == s.blocked + if refused then 1 else 0
  {
    hide Slip, BlockedBySpacing;
  }

  /** A row's forced exit leaves the remembered buy and the count of blocked rows alone. */
  lemma ExitKeepsMemory(s: State, row: TapeRow, rules: Rules, bps: real)
    ensures AfterExit(s, row, rules, bps).lastBuy == s.lastBuy && AfterExit(s, row, rules, bps).blocked == s.blocked
  {
  }

  lemma FlatMeansNoLots(s: State)
    requires Sound(s) && Held(s.lots) == 0
    ensures s.lots == []
  {
    HeldNonNegative(s.lots);
  }

  /** WHEN A POSITION'S FIRST BUY IS REFUSED. On a row that finds no position, because none was held or
      because its own forced exit has just closed it, a buy after any tape of increasing days is
      refused, and counted as blocked, exactly when some earlier purchase of the tape is too recent, or
      the day's VaR limit allows no share at all. */
  lemma FirstBuyRefusedExactlyWhen(tape: seq<TapeRow>, row: TapeRow, rules: Rules, bps: real)
    requires DaysIncrease(tape) && Held(AfterExit(Run(tape, rules, bps), row, rules, bps).lots) == 0
    requires row.action == BUY && Quantity(row) > 0
    ensures
      var before, next := Run(tape, rules, bps), Run(tape + [row], rules, bps);
      var refused := (rules.minDays.Some? && BoughtRecently(tape, row.day, rules.minDays.value, rules, bps))
                     || (RowLimit(row, rules).Some? && RowLimit(row, rules).value <= 0);
      && (next.lots == [] <==> refused)
      && next.blocked == before.blocked + if refused then 1 else 0
  {
    var s := Run(tape, rules, bps);
    ReplayStaysSound(tape, rules, bps);
    DayKeepsSound(s, row, rules, bps);
    BlockedExactlyWhenBoughtRecently(tape, row.day, rules, bps);
    RunAppend(tape, row, rules, bps);
    hide Run, AfterExit, AfterGate, Sound, FillsFit, BoughtRecently, BlockedBySpacing;
    ExitKeepsMemory(s, row, rules, bps);
    FlatMeansNoLots(AfterExit(s, row, rules, bps));
    BuyWhenFlat(AfterExit(s, row, rules, bps), row, rules, bps);
  }

  // ---------------------------------------------------------------- the documentation's claim

  const EVERY_THREE_DAYS := V1_RULES.(minDays := Some(3))
  const MONDAY := TapeRow(1, BUY, Some(5), 10.0, None)
  const TUESDAY := TapeRow(2, SELL, Some(5), 10.0, None)
  const WEDNESDAY := TapeRow(3, BUY, Some(5), 10.0, None)

  lemma BuyOnMonday()
    ensures Run([MONDAY], EVERY_THREE_DAYS, 0.0).lots == [Lot(5, Slip(10.0, BUY, 0.0))]
    ensures Run([MONDAY], EVERY_THREE_DAYS, 0.0).lastBuy == Some(1)
  {
    RunAppend([], MONDAY, EVERY_THREE_DAYS, 0.0);
    assert [] + [MONDAY] == [MONDAY];
    hide Slip;
    assert Run([], EVERY_THREE_DAYS, 0.0) == START;
  }

  lemma CloseOnTuesday()
    ensures Run([MONDAY, TUESDAY], EVERY_THREE_DAYS, 0.0).lots == []
    ensures Run([MONDAY, TUESDAY], EVERY_THREE_DAYS, 0.0).lastBuy == Some(1)
  {
    BuyOnMonday();
    RunAppend([MONDAY], TUESDAY, EVERY_THREE_DAYS, 0.0);
    assert [MONDAY] + [TUESDAY] == [MONDAY, TUESDAY];
    var s := Run([MONDAY], EVERY_THREE_DAYS, 0.0);
    hide Run;
    SaleOfWholeLot(s.lots, 5, Slip(10.0, SELL, 0.0), Exact);
    hide Slip;
  }

  /** The spacing rule's documentation says that the first buy of a position is always allowed.
      The replay keeps the last buy day across a full close, so it is refused: a buy on Monday,
      a full close on Tuesday, and a buy into the empty position on Wednesday. */
  lemma SpacingRefusesAPositionsFirstBuy()
    ensures
      var before := Run([MONDAY, TUESDAY], EVERY_THREE_DAYS, 0.0);
      var after := Run([MONDAY, TUESDAY, WEDNESDAY], EVERY_THREE_DAYS, 0.0);
      before.lots == [] && after.lots == [] && after.blocked == before.blocked + 1
  {
    CloseOnTuesday();
    RunAppend([MONDAY, TUESDAY], WEDNESDAY, EVERY_THREE_DAYS, 0.0);
    assert [MONDAY, TUESDAY] + [WEDNESDAY] == [MONDAY, TUESDAY, WEDNESDAY];
    assert WeekdaysBetween(1, 1) == 0 && WeekdaysBetween(1, 2) == 1 && WeekdaysBetween(1, 3) == 2;
    var s := Run([MONDAY, TUESDAY], EVERY_THREE_DAYS, 0.0);
    hide Run, AfterGate;
    ExitKeepsMemory(s, WEDNESDAY, EVERY_THREE_DAYS, 0.0);
    assert AfterExit(s, WEDNESDAY, EVERY_THREE_DAYS, 0.0).lots == [];
    BuyWhenFlat(AfterExit(s, WEDNESDAY, EVERY_THREE_DAYS, 0.0), WEDNESDAY, EVERY_THREE_DAYS, 0.0);
  }

  const WITH_A_STOP := EVERY_THREE_DAYS.(stopLoss := Some(10.0))
  const HALVED := TapeRow(2, BUY, Some(5), 5.0, None)

  /** The claim fails within one row as well: on Tuesday the price has halved, the stop sells all five
      shares, and the buy that would open the next position is refused. */
  lemma SpacingRefusesTheBuyAfterAStop()
    ensures
      var before, after := Run([MONDAY], WITH_A_STOP, 0.0), Run([MONDAY, HALVED], WITH_A_STOP, 0.0);
      && Held(before.lots) == 5 && AfterExit(before, HALVED, WITH_A_STOP, 0.0).lots == []
      && after.lots == [] && after.blocked == before.blocked + 1
  {
    BuyBeforeTheStop();
    StopSellsAll(Run([MONDAY], WITH_A_STOP, 0.0));
    RunAppend([MONDAY], HALVED, WITH_A_STOP, 0.0);
    assert [MONDAY] + [HALVED] == [MONDAY, HALVED];
    assert WeekdaysBetween(1, 1) == 0 && WeekdaysBetween(1, 2) == 1;
    var s := Run([MONDAY], WITH_A_STOP, 0.0);
    hide Run, AfterGate, AfterExit;
    ExitKeepsMemory(s, HALVED, WITH_A_STOP, 0.0);
    BuyWhenFlat(AfterExit(s, HALVED, WITH_A_STOP, 0.0), HALVED, WITH_A_STOP, 0.0);
  }

  lemma BuyBeforeTheStop()
    ensures Run([MONDAY], WITH_A_STOP, 0.0).lots == [Lot(5, 10.0)]
    ensures Run([MONDAY], WITH_A_STOP, 0.0).lastBuy == Some(1)
  {
    RunAppend([], MONDAY, WITH_A_STOP, 0.0);
    assert [] + [MONDAY] == [MONDAY] && Run([], WITH_A_STOP, 0.0) == START;
    hide Run;
    FirstBuy();
    hide Step;
  }

  lemma FirstBuy()
    ensures Step(START, MONDAY, WITH_A_STOP, 0.0).lots == [Lot(5, 10.0)]
    ensures Step(START, MONDAY, WITH_A_STOP, 0.0).lastBuy == Some(1)
  {
    assert Slip(10.0, BUY, 0.0) == 10.0;
    hide Slip;
    var mid := AfterExit(START, MONDAY, WITH_A_STOP, 0.0);
    assert mid == START;
    hide AfterExit;
    assert Gate(START, MONDAY, WITH_A_STOP, 0.0) == Trade(Fill(BUY, 5, 10.0));
    hide Gate;
    assert [] + [Lot(5, 10.0)] == [Lot(5, 10.0)];
  }

  lemma StopSellsAll(s: State)
    requires s.lots == [Lot(5, 10.0)]
    ensures Held(s.lots) == 5 && AfterExit(s, HALVED, WITH_A_STOP, 0.0).lots == []
  {
    assert s.lots[1..] == [];
    assert Held(s.lots) == 5 && Cost(s.lots) == 50.0 && AvgEntry(s.lots) == 10.0;
    assert DownBy(10.0, 5.0, 10.0);
    hide AvgEntry, Cost;
    SaleOfWholeLot(s.lots, 5, Slip(5.0, SELL, 0.0), Exact);
    hide Slip, Pnl;
  }
}
