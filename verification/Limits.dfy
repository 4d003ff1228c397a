/** Tighter daily share limits hold no more shares on any day, so the VaR-budget run never holds
    more than the V1 run over the same tape. */
module Limits {
  import opened Trading
  import opened Lots
  import opened Replay
  import ReplayMachine

  /** No drawdown, stop or spacing rule: the two rule sets the comparison runs. */
  predicate Plain(rules: Rules) {
    rules == V1_RULES || rules == VAR_RULES
  }

  /** The position after a row, from the position alone. */
  function NextHeld(held: int, action: Action, qty: int, cap: int): int {
    if action == HOLD || qty <= 0 then held
    else if action == BUY then (if held >= cap then held else held + Min(qty, cap - held))
    else if held == 0 then held
    else held - Min(qty, held)
  }

  lemma NextHeldMonotone(h1: int, h2: int, action: Action, qty: int, cap1: int, cap2: int)
    requires 0 <= h1 <= h2 && cap1 <= cap2
    ensures NextHeld(h1, action, qty, cap1) <= NextHeld(h2, action, qty, cap2)
  {
  }

  lemma StepHolds(s: State, row: TapeRow, rules: Rules, bps: real)
    requires Sound(s) && Plain(rules)
    ensures Held(Step(s, row, rules, bps).lots) == NextHeld(Held(s.lots), row.action, Quantity(row), BuyCap(row, rules))
  {
    DayKeepsSound(s, row, rules, bps);
    var mid := AfterExit(s, row, rules, bps);
    assert mid.lots == s.lots;
    hide Slip, Execute;
    var gate := Gate(mid, row, rules, bps);
    if gate.Trade? {
      ExecuteKeepsSound(mid, gate.fill);
    }
  }

  /** Two tapes with the same proposals, the first with nowhere a larger buying cap. */
  ghost predicate Tighter(t1: seq<TapeRow>, r1: Rules, t2: seq<TapeRow>, r2: Rules) {
    && |t1| == |t2|
    && forall i :: 0 <= i < |t1| ==>
         && t1[i].action == t2[i].action
         && Quantity(t1[i]) == Quantity(t2[i])
         && BuyCap(t1[i], r1) <= BuyCap(t2[i], r2)
  }

  lemma {:induction false} TighterLimitsHoldLess(t1: seq<TapeRow>, r1: Rules, t2: seq<TapeRow>, r2: Rules, bps: real)
    requires Plain(r1) && Plain(r2) && Tighter(t1, r1, t2, r2)
    ensures Held(Run(t1, r1, bps).lots) <= Held(Run(t2, r2, bps).lots)
  {
    if t1 != [] {
      hide Step, BuyCap, Quantity, NextHeld;
      var n := |t1| - 1;
      TighterLimitsHoldLess(t1[..n], r1, t2[..n], r2, bps);
      ReplayStaysSound(t1[..n], r1, bps);
      ReplayStaysSound(t2[..n], r2, bps);
      StepHolds(Run(t1[..n], r1, bps), t1[n], r1, bps);
      StepHolds(Run(t2[..n], r2, bps), t2[n], r2, bps);
      NextHeldMonotone(Held(Run(t1[..n], r1, bps).lots), Held(Run(t2[..n], r2, bps).lots),
                       t1[n].action, Quantity(t1[n]), BuyCap(t1[n], r1), BuyCap(t2[n], r2));
    }
  }

  /** Over every tape the VaR-budget replay holds no more than the V1 replay after every row ... */
  lemma VarHoldsNoMoreThanV1(tape: seq<TapeRow>, bps: real)
    ensures Held(Run(tape, VAR_RULES, bps).lots) <= Held(Run(tape, V1_RULES, bps).lots)
  {
    TighterLimitsHoldLess(tape, VAR_RULES, tape, V1_RULES, bps);
  }

  /** ... so its average shares held is no larger. */
  lemma {:induction false} VarAveragesNoMoreThanV1(tape: seq<TapeRow>, bps: real)
    ensures ReplayMachine.Sum(ReplayMachine.HeldPath(tape, VAR_RULES, bps))
         <= ReplayMachine.Sum(ReplayMachine.HeldPath(tape, V1_RULES, bps))
  {
    if tape != [] {
      hide Run;
      var prefix := tape[..|tape| - 1];
      VarAveragesNoMoreThanV1(prefix, bps);
      VarHoldsNoMoreThanV1(tape, bps);
      SumAppend(ReplayMachine.HeldPath(prefix, VAR_RULES, bps), Held(Run(tape, VAR_RULES, bps).lots));
      SumAppend(ReplayMachine.HeldPath(prefix, V1_RULES, bps), Held(Run(tape, V1_RULES, bps).lots));
    }
  }

  lemma SumAppend(xs: seq<int>, x: int)
    ensures ReplayMachine.Sum(xs + [x]) == ReplayMachine.Sum(xs) + x
  {
    assert (xs + [x])[..|xs|] == xs;
  }
}
