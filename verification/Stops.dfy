/** What the replay's stop and drawdown rules mean on a tape: losses as a share of the position's
    cost, and falls from the highest price since the position was opened. */
module Stops {
  import opened Trading
  import opened Reals
  import opened Lots
  import opened Replay
  import Counterfactual

  /** Selling now would lose at least `pct` percent of what the open shares cost. */
  predicate LosesShare(lots: seq<Lot>, price: real, pct: real) {
    Times(-Unrealized(lots, price), 100.0) >= Times(pct, Cost(lots))
  }

  /** `price` is at least `pct` percent below a positive reference. */
  predicate FallsShare(reference: real, price: real, pct: real) {
    Times(reference - price, 100.0) >= Times(pct, reference)
  }

  lemma PercentOfReference(reference: real, price: real, pct: real)
    requires reference > 0.0
    ensures DownBy(reference, price, pct) <==> FallsShare(reference, price, pct)
  {
    var ratio := (reference - price) / reference;
    assert ratio * reference == reference - price;
    PositiveScale(ratio * 100.0, pct, reference, (reference - price) * 100.0, pct * reference);
  }

  /** The trailing rule against any peak: a peak of zero never fires, a negative one reverses the test. */
  predicate TrailFires(high: real, price: real, pct: real) {
    if high > 0.0 then FallsShare(high, price, pct)
    else high < 0.0 && Times(high - price, 100.0) <= Times(pct, high)
  }

  lemma PercentOfPeak(high: real, price: real, pct: real)
    ensures high != 0.0 && DownBy(high, price, pct) <==> TrailFires(high, price, pct)
  {
    if high > 0.0 {
      PercentOfReference(high, price, pct);
    } else if high < 0.0 {
      var ratio := (high - price) / high;
      assert ratio * high == high - price;
      PositiveScale(ratio * 100.0, pct, -high, -((high - price) * 100.0), -(pct * high));
    }
  }

  lemma PositiveScale(x: real, y: real, z: real, xz: real, yz: real)
    requires z > 0.0 && xz == x * z && yz == y * z
    ensures x >= y <==> xz >= yz
  {
    assert (x - y) * z == xz - yz;
    if x > y {
      PositiveProduct(x - y, z);
    } else if x < y {
      PositiveProduct(y - x, z);
    }
  }

  lemma ScaledFall(average: real, price: real, pct: real, n: real, cost: real, loss: real)
    requires n > 0.0 && cost == average * n && loss == average * n - price * n
    ensures FallsShare(average, price, pct) <==> Times(loss, 100.0) >= Times(pct, cost)
  {
    PositiveScale((average - price) * 100.0, pct * average, n, Times(loss, 100.0), Times(pct, cost));
  }

  /** The average entry is down by `pct` percent exactly when the position loses that share of its
      cost, lot by lot. */
  lemma AverageDownMeansLossShare(lots: seq<Lot>, price: real, pct: real)
    requires Positive(lots) && lots != []
    ensures AvgEntry(lots) > 0.0 <==> Cost(lots) > 0.0
    ensures Cost(lots) > 0.0 ==> (DownBy(AvgEntry(lots), price, pct) <==> LosesShare(lots, price, pct))
  {
    HeldNonNegative(lots);
    Counterfactual.UnrealizedIsWorthLessCost(lots, price);
    var n, average := Held(lots) as real, AvgEntry(lots);
    assert average * n == Cost(lots);
    PositiveScale(average, 0.0, n, Cost(lots), 0.0);
    PositiveScale(-average, 0.0, n, -Cost(lots), 0.0);
    hide Cost, Held, AvgEntry, Unrealized, DownBy, FallsShare, Times;
    if average > 0.0 {
      PercentOfReference(average, price, pct);
      ScaledFall(average, price, pct, n, Cost(lots), -Unrealized(lots, price));
    }
  }

  // ---------------------------------------------------------------- the peak

  /** No position is left when row i's own proposal is considered. */
  predicate FlatAt(tape: seq<TapeRow>, i: nat, rules: Rules, bps: real)
    requires i < |tape|
  {
    Held(AfterExit(Run(tape[..i], rules, bps), tape[i], rules, bps).lots) == 0
  }

  /** i is the last flat row of the first n: the position held since was opened on it. */
  predicate OpenedOn(tape: seq<TapeRow>, i: nat, n: nat, rules: Rules, bps: real)
    requires i < n <= |tape|
  {
    FlatAt(tape, i, rules, bps) && forall j :: i < j < n ==> !FlatAt(tape, j, rules, bps)
  }

  /** The highest price of rows first to last. */
  predicate IsHighest(high: real, tape: seq<TapeRow>, first: nat, last: nat)
    requires last < |tape|
  {
    && (forall j :: first <= j <= last ==> tape[j].price <= high)
    && (exists j :: first <= j <= last && tape[j].price == high)
  }

  /** A day's exit either leaves the lots alone or leaves none and forgets the peak. */
  lemma ExitKeepsOrClears(s: State, row: TapeRow, rules: Rules, bps: real)
    requires Sound(s)
    ensures
      var marked, after := s.(peak := MarkPeak(s, row.price)), AfterExit(s, row, rules, bps);
      if StopHit(marked, row.price, rules) then Held(s.lots) > 0 && after.lots == [] && after.peak == None
      else after == marked
  {
    DayKeepsSound(s, row, rules, bps);
    HeldNonNegative(s.lots);
    var marked := s.(peak := MarkPeak(s, row.price));
    if StopHit(marked, row.price, rules) {
      var exit := Exit(marked, row, rules, bps);
      ExecuteKeepsSound(marked, exit.value);
      HeldNonNegative(AfterExit(s, row, rules, bps).lots);
    }
  }

  lemma GateKeepsPeak(s: State, row: TapeRow, rules: Rules, bps: real)
    ensures AfterGate(s, row, rules, bps).peak == s.peak
  {
  }

  lemma SameOpening(tape: seq<TapeRow>, i: nat, rules: Rules, bps: real)
    requires i < |tape| - 1 && OpenedOn(tape, i, |tape| - 1, rules, bps)
    ensures OpenedOn(tape[..|tape| - 1], i, |tape| - 1, rules, bps)
  {
    var before := tape[..|tape| - 1];
    hide AfterExit, Run;
    forall j | i <= j < |before| ensures FlatAt(before, j, rules, bps) == FlatAt(tape, j, rules, bps) {
      assert before[..j] == tape[..j];
    }
  }

  /** THE PEAK. After any tape the recorded peak is the highest price of the rows since the one the
      position was opened on, that row excluded, and there is none if the last row was flat. */
  lemma {:induction false} PeakIsHighestSinceOpening(tape: seq<TapeRow>, i: nat, rules: Rules, bps: real)
    requires i < |tape| && OpenedOn(tape, i, |tape|, rules, bps)
    ensures
      var peak := Run(tape, rules, bps).peak;
      if i == |tape| - 1 then peak == None
      else peak.Some? && IsHighest(peak.value, tape, i + 1, |tape| - 1)
  {
    var n := |tape| - 1;
    var before, row := tape[..n], tape[n];
    var s := Run(before, rules, bps);
    ReplayStaysSound(before, rules, bps);
    assert Run(tape, rules, bps) == Step(s, row, rules, bps);
    hide Run, AfterExit, Sound, FillsFit, IsHighest;
    PeakAfterRow(s, row, rules, bps);
    assert FlatAt(tape, n, rules, bps) <==> Held(AfterExit(s, row, rules, bps).lots) == 0;
    if i < n {
      SameOpening(tape, i, rules, bps);
      hide FlatAt;
      PeakIsHighestSinceOpening(before, i, rules, bps);
      hide OpenedOn;
      HighestExtends(tape, i, s.peak, row.price);
    }
  }

  /** A row that leaves no position for its own proposal forgets the peak, any other one marks it. */
  lemma PeakAfterRow(s: State, row: TapeRow, rules: Rules, bps: real)
    requires Sound(s)
    ensures Step(s, row, rules, bps).peak
            == if Held(AfterExit(s, row, rules, bps).lots) == 0 then None else Some(Higher(s.peak, row.price))
  {
    ExitKeepsOrClears(s, row, rules, bps);
    GateKeepsPeak(AfterExit(s, row, rules, bps), row, rules, bps);
    hide StopHit, Sound, AfterGate, AfterExit;
  }

  function Higher(peak: Option<real>, price: real): real {
    if peak.None? || price > peak.value then price else peak.value
  }

  lemma HighestExtends(tape: seq<TapeRow>, i: nat, peak: Option<real>, price: real)
    requires i < |tape| - 1 && price == tape[|tape| - 1].price
    requires if i == |tape| - 2 then peak == None
             else peak.Some? && IsHighest(peak.value, tape[..|tape| - 1], i + 1, |tape| - 2)
    ensures IsHighest(Higher(peak, price), tape, i + 1, |tape| - 1)
  {
    var n := |tape| - 1;
    assert forall j :: i + 1 <= j < n ==> tape[..n][j] == tape[j];
    assert price == tape[n].price;
  }

  // ---------------------------------------------------------------- the stops

  /** FORCED EXITS. A position opened on row i and still held when the last row begins is closed by
      force on that row exactly when it loses the stop-loss share of its cost, or the price has
      fallen by the trailing share from the highest since the opening. */
  lemma ForcedExitExactlyWhen(tape: seq<TapeRow>, i: nat, high: real, rules: Rules, bps: real)
    requires |tape| >= 2 && i < |tape| - 1 && OpenedOn(tape, i, |tape| - 1, rules, bps)
    requires Held(Run(tape[..|tape| - 1], rules, bps).lots) > 0
    requires IsHighest(high, tape, i + 1, |tape| - 1)
    ensures
      var lots, price := Run(tape[..|tape| - 1], rules, bps).lots, tape[|tape| - 1].price;
      FlatAt(tape, |tape| - 1, rules, bps) <==>
        || (rules.stopLoss.Some? && Cost(lots) > 0.0 && LosesShare(lots, price, rules.stopLoss.value))
        || (rules.trailingStop.Some? && TrailFires(high, price, rules.trailingStop.value))
  {
    var n := |tape| - 1;
    var before, row := tape[..n], tape[n];
    var s := Run(before, rules, bps);
    ReplayStaysSound(before, rules, bps);
    SameOpening(tape, i, rules, bps);
    PeakIsHighestSinceOpening(before, i, rules, bps);
    assert FlatAt(tape, n, rules, bps) <==> Held(AfterExit(s, row, rules, bps).lots) == 0;
    hide Run, AfterExit, OpenedOn, FlatAt, FillsFit, IsHighest, LosesShare, TrailFires, StopHit;
    FlatExactlyWhenStopped(s, row, rules, bps);
    HighestExtends(tape, i, s.peak, row.price);
    HighestIsUnique(high, Higher(s.peak, row.price), tape, i + 1, n);
    StopHitExactlyWhen(s.(peak := Some(high)), row.price, rules, high);
  }

  lemma FlatExactlyWhenStopped(s: State, row: TapeRow, rules: Rules, bps: real)
    requires Sound(s) && Held(s.lots) > 0
    ensures Held(AfterExit(s, row, rules, bps).lots) == 0
       <==> StopHit(s.(peak := Some(Higher(s.peak, row.price))), row.price, rules)
  {
    ExitKeepsOrClears(s, row, rules, bps);
    hide StopHit, AfterExit;
  }

  lemma HighestIsUnique(a: real, b: real, tape: seq<TapeRow>, first: nat, last: nat)
    requires last < |tape| && IsHighest(a, tape, first, last) && IsHighest(b, tape, first, last)
    ensures a == b
  {
  }

  /** Behind a known peak, whether a stop fires. */
  lemma StopHitExactlyWhen(s: State, price: real, rules: Rules, high: real)
    requires Positive(s.lots) && Held(s.lots) > 0 && s.peak == Some(high)
    ensures StopHit(s, price, rules) <==>
            || (rules.stopLoss.Some? && Cost(s.lots) > 0.0 && LosesShare(s.lots, price, rules.stopLoss.value))
            || (rules.trailingStop.Some? && TrailFires(high, price, rules.trailingStop.value))
  {
    if rules.stopLoss.Some? {
      AverageDownMeansLossShare(s.lots, price, rules.stopLoss.value);
    }
    if rules.trailingStop.Some? {
      PercentOfPeak(high, price, rules.trailingStop.value);
    }
    hide AvgEntry, Cost, DownBy, LosesShare, TrailFires;
  }

  const TRAIL_FIVE := V1_RULES.(trailingStop := Some(5.0))
  const OPENING := TapeRow(1, BUY, Some(5), 10.0, None)
  const NEXT_DAY := TapeRow(2, HOLD, None, 9.0, None)

  /** The documentation measures the trailing stop from the highest price since the position was
      opened. The opening row's own price does not take part: here the price falls ten percent from
      the opening day to the next, and a five percent stop keeps the position. */
  lemma TrailingStopForgetsTheOpeningRow()
    ensures
      && IsHighest(10.0, [OPENING, NEXT_DAY], 0, 1) && TrailFires(10.0, 9.0, 5.0)
      && Run([OPENING, NEXT_DAY], TRAIL_FIVE, 0.0).lots == Run([OPENING], TRAIL_FIVE, 0.0).lots
      && Run([OPENING], TRAIL_FIVE, 0.0).lots == [Lot(5, 10.0)]
  {
    var tape := [OPENING, NEXT_DAY];
    assert tape[0].price == 10.0;
    assert Slip(10.0, BUY, 0.0) == 10.0;
    RunAppend([], OPENING, TRAIL_FIVE, 0.0);
    assert [] + [OPENING] == [OPENING] && Run([], TRAIL_FIVE, 0.0) == START;
    RunAppend([OPENING], NEXT_DAY, TRAIL_FIVE, 0.0);
    assert [OPENING] + [NEXT_DAY] == tape;
    hide Run, Slip;
  }

  /** THE DRAWDOWN RULE. With that rule alone, a buy below the cap is refused exactly when the open
      position loses the given share of its cost. */
  lemma DrawdownRefusesExactlyWhen(s: State, row: TapeRow, pct: real, bps: real)
    requires Sound(s) && s.lots != [] && Held(s.lots) < MAX_POSITION_QTY && Cost(s.lots) > 0.0
    requires row.action == BUY && Quantity(row) > 0
    ensures
      var rules := V1_RULES.(maxDrawdown := Some(pct));
      Gate(s, row, rules, bps).Blocked? <==> LosesShare(s.lots, row.price, pct)
  {
    AverageDownMeansLossShare(s.lots, row.price, pct);
    HeldNonNegative(s.lots);
    hide LosesShare, AvgEntry, Cost, DownBy;
  }
}
