/** The Risk Manager: the V1 position cap, then the V2 VaR budget on top of it. The offline
    replay applies the same two rules as one fused minimum; `GateIsFusedMin` shows that what
    either form executes is the same, for every proposal and position. */
module RiskGate {
  import opened Trading

  datatype Opinion = APPROVE | VETO | SCALE

  datatype Verdict = Verdict(opinion: Opinion, adjusted: Option<int>)

  datatype Ruling = Ruling(verdict: Verdict, action: Action, quantity: int)

  /** What the node knows about VaR on a day: it may have no price source, or too little history. */
  datatype VarInput = NoPriceSource | NoHistory | Known(var95: real)

  datatype Flag = VarUnavailable | OverVarBudget | VarBudgetVeto | VarBudgetScale | HighCorrelation(other: string)

  const CORRELATION_FLAG: real := 0.8

  // ---------------------------------------------------------------- the share limit

  /** Rounding to the nearest integer, ties to the even one. */
  function RoundHalfEven(x: real): int {
    var low := x.Floor;
    var rest := x - low as real;
    if rest < 0.5 || (rest == 0.5 && low % 2 == 0) then low else low + 1
  }

  /** `round(x, 9)` over exact reals. */
  function Round9(x: real): real {
    RoundHalfEven(x * 1_000_000_000.0) as real / 1_000_000_000.0
  }

  function VarMaxQty(v: real): int {
    if v <= 0.0 then MAX_POSITION_QTY
    else Min(MAX_POSITION_QTY, Round9(MAX_POSITION_QTY as real * VAR_BUDGET / v).Floor)
  }

  /** The limit the node records for the day: none without a VaR. */
  function Limit(input: VarInput): Option<int> {
    if input.Known? then Some(VarMaxQty(input.var95)) else None
  }

  /** Half a unit of the ninth decimal. */
  const HALF_NINTH_DIGIT: real := 0.000_000_000_5

  lemma RoundReachesEven(x: real, half: int)
    ensures 2 * half <= RoundHalfEven(x) <==> (2 * half) as real - 0.5 <= x
  {
    var low := x.Floor;
    assert low as real <= x < low as real + 1.0;
  }

  lemma FloorReaches(x: real, n: int)
    ensures n <= x.Floor <==> n as real <= x
  {
  }

  lemma DivReaches(k: int, n: int)
    ensures n as real <= k as real / 1_000_000_000.0 <==> n * 1_000_000_000 <= k
  {
  }

  lemma Round9Reaches(x: real, n: int)
    ensures n <= Round9(x).Floor <==> n as real <= x + HALF_NINTH_DIGIT
  {
    var y, half := x * 1_000_000_000.0, n * 500_000_000;
    var k := RoundHalfEven(y);
    calc <==> {
      n <= Round9(x).Floor;
      { FloorReaches(Round9(x), n); }
      n as real <= k as real / 1_000_000_000.0;
      { DivReaches(k, n); }
      2 * half <= k;
      { RoundReachesEven(y, half); }
      (2 * half) as real - 0.5 <= y;
      n as real <= x + HALF_NINTH_DIGIT;
    }
  }

  lemma DivisionAgainst(a: real, v: real, n: real, eps: real)
    requires v > 0.0
    ensures n <= a / v + eps <==> n * v <= a + eps * v
  {
    var q := a / v;
    assert q * v == a;
    if n <= q + eps {
      assert n * v <= (q + eps) * v;
    } else {
      assert n * v > (q + eps) * v;
    }
  }

  /** `VarMaxQty` is the largest share count up to the cap that the VaR budget allows, the
      nine-digit rounding guard widening the budget by exactly half a unit of the ninth digit. */
  lemma VarMaxQtyIsLargestWithinBudget(v: real, n: int)
    requires 0.0 < v && n <= MAX_POSITION_QTY
    ensures n <= VarMaxQty(v) <==> n as real * v <= MAX_POSITION_QTY as real * VAR_BUDGET + HALF_NINTH_DIGIT * v
  {
    hide RoundHalfEven, Round9;
    var a := MAX_POSITION_QTY as real * VAR_BUDGET;
    Round9Reaches(a / v, n);
    DivisionAgainst(a, v, n as real, HALF_NINTH_DIGIT);
  }

  lemma VarMaxQtyRange(v: real)
    ensures 0 <= VarMaxQty(v) <= MAX_POSITION_QTY
    ensures v <= 0.02 ==> VarMaxQty(v) == MAX_POSITION_QTY
  {
    hide RoundHalfEven, Round9;
    if v > 0.0 {
      VarMaxQtyIsLargestWithinBudget(v, 0);
      VarMaxQtyIsLargestWithinBudget(v, MAX_POSITION_QTY);
    }
  }

  // ---------------------------------------------------------------- the node

  function V1Rules(p: Proposal, held: int): Ruling {
    if p.action == HOLD || p.quantity == 0 then
      Ruling(Verdict(APPROVE, None), HOLD, 0)
    else if p.action == BUY then
      if held >= MAX_POSITION_QTY then
        Ruling(Verdict(VETO, None), HOLD, 0)
      else if held + p.quantity > MAX_POSITION_QTY then
        Ruling(Verdict(SCALE, Some(MAX_POSITION_QTY - held)), BUY, MAX_POSITION_QTY - held)
      else
        Ruling(Verdict(APPROVE, None), BUY, p.quantity)
    else if held == 0 then
      Ruling(Verdict(VETO, None), HOLD, 0)
    else if p.quantity > held then
      Ruling(Verdict(SCALE, Some(held)), SELL, held)
    else
      Ruling(Verdict(APPROVE, None), SELL, p.quantity)
  }

  /** The budget on top of a V1 ruling. */
  function Budgeted(r: Ruling, held: int, limit: Option<int>): Ruling {
    if limit.None? || r.action != BUY then r
    else if limit.value - held <= 0 then Ruling(Verdict(VETO, None), HOLD, 0)
    else if r.quantity > limit.value - held then
      Ruling(Verdict(SCALE, Some(limit.value - held)), BUY, limit.value - held)
    else r
  }

  function Decide(p: Proposal, held: int, limit: Option<int>): Ruling {
    Budgeted(V1Rules(p, held), held, limit)
  }

  /** What of a ruling reaches the ledger: a HOLD or a non-positive quantity is no trade. */
  function Executed(action: Action, quantity: int): Option<(Action, int)> {
    if action == HOLD || quantity <= 0 then None else Some((action, quantity))
  }

  /** The same gate as one fused minimum, as the replay computes it. */
  function Fused(p: Proposal, held: int, limit: Option<int>): Option<(Action, int)> {
    if p.action == HOLD || p.quantity <= 0 then None
    else if p.action == BUY then
      var cap := if limit.Some? then Min(MAX_POSITION_QTY, limit.value) else MAX_POSITION_QTY;
      if held >= cap then None else Some((BUY, Min(p.quantity, cap - held)))
    else if held == 0 then None
    else Some((SELL, Min(p.quantity, held)))
  }

  lemma GateIsFusedMin(p: Proposal, held: int, limit: Option<int>)
    requires 0 <= held
    ensures Executed(Decide(p, held, limit).action, Decide(p, held, limit).quantity) == Fused(p, held, limit)
  {
  }

  /** The budget only ever shrinks or blocks a BUY that V1 allowed; it never touches a SELL. */
  lemma BudgetOnlyShrinksBuys(p: Proposal, held: int, limit: Option<int>)
    requires 0 <= held
    ensures
      var v1, v2 := V1Rules(p, held), Decide(p, held, limit);
      && (p.action != BUY ==> v2 == v1)
      && match Executed(v2.action, v2.quantity) {
           case None => true
           case Some(trade) =>
             var before := Executed(v1.action, v1.quantity);
             before.Some? && before.value.0 == trade.0 && trade.1 <= before.value.1
         }
  {
  }

  /** After any executed trade the position is between 0 and the cap, a SELL never exceeds the
      holding, and after a BUY on a day with a VaR the whole position is within the budget. */
  lemma GateKeepsPositionInRange(p: Proposal, held: int, input: VarInput)
    requires 0 <= held <= MAX_POSITION_QTY
    ensures
      var trade := Fused(p, held, Limit(input));
      && (trade.Some? && trade.value.0 == SELL ==> 0 < trade.value.1 <= held)
      && (trade.Some? && trade.value.0 == BUY ==>
            && 0 < trade.value.1 <= MAX_POSITION_QTY - held
            && (input.Known? && input.var95 > 0.0 ==>
                  (held + trade.value.1) as real * input.var95
                    <= MAX_POSITION_QTY as real * VAR_BUDGET + HALF_NINTH_DIGIT * input.var95))
  {
    hide VarMaxQty;
    if input.Known? && input.var95 > 0.0 {
      var trade := Fused(p, held, Limit(input));
      if trade.Some? && trade.value.0 == BUY {
        VarMaxQtyIsLargestWithinBudget(input.var95, held + trade.value.1);
      }
    }
  }

  /** Others whose correlation with the symbol is above the flag, in order. */
  function CorrelationFlags(rhos: seq<(string, Option<real>)>): seq<Flag> {
    if rhos == [] then []
    else
      var last := rhos[|rhos| - 1];
      CorrelationFlags(rhos[..|rhos| - 1])
        + if last.1.Some? && last.1.value > CORRELATION_FLAG then [HighCorrelation(last.0)] else []
  }

  /** Flags about the budget, in the order the node appends them. */
  function BudgetFlags(p: Proposal, held: int, input: VarInput): seq<Flag> {
    match input
    case NoPriceSource => []
    case NoHistory => [VarUnavailable]
    case Known(v) =>
      var v1, room := V1Rules(p, held), VarMaxQty(v) - held;
      (if room < 0 then [OverVarBudget] else [])
        + if v1.action == BUY && room <= 0 then [VarBudgetVeto]
          else if v1.action == BUY && v1.quantity > room then [VarBudgetScale]
          else []
  }

  method FlagCorrelations(rhos: seq<(string, Option<real>)>) returns (flags: seq<Flag>)
    ensures flags == CorrelationFlags(rhos)
    ensures forall f :: f in flags ==> f.HighCorrelation?
  {
    flags := [];
    var i := 0;
    while i < |rhos|
      invariant 0 <= i <= |rhos|
      invariant flags == CorrelationFlags(rhos[..i])
      invariant forall f :: f in flags ==> f.HighCorrelation?
    {
      var (other, rho) := rhos[i];
      assert rhos[..i + 1][..i] == rhos[..i];
      if rho.Some? && rho.value > CORRELATION_FLAG {
        flags := flags + [HighCorrelation(other)];
      }
      i := i + 1;
    }
    assert rhos[..i] == rhos;
  }

  /** The node itself: it starts from the V1 ruling and reassigns it. Correlations with the
      other holdings are only ever flags. */
  method RiskNode(p: Proposal, held: int, input: VarInput, correlations: seq<(string, Option<real>)>)
    returns (ruling: Ruling, flags: seq<Flag>, maxQty: Option<int>)
    ensures ruling == Decide(p, held, Limit(input))
    ensures maxQty == Limit(input)
    ensures flags == BudgetFlags(p, held, input)
                     + if input.NoPriceSource? then [] else CorrelationFlags(correlations)
  {
    hide VarMaxQty;
    var v1 := V1Rules(p, held);
    var verdict, action, quantity := v1.verdict, v1.action, v1.quantity;
    flags, maxQty := [], None;
    if !input.NoPriceSource? {
      if input.NoHistory? {
        flags := flags + [VarUnavailable];
      } else {
        var limit := VarMaxQty(input.var95);
        maxQty := Some(limit);
        if held > limit {
          flags := flags + [OverVarBudget];
        }
        if action == BUY {
          var room := limit - held;
          if room <= 0 {
            verdict, action, quantity := Verdict(VETO, None), HOLD, 0;
            flags := flags + [VarBudgetVeto];
          } else if quantity > room {
            verdict, quantity := Verdict(SCALE, Some(room)), room;
            flags := flags + [VarBudgetScale];
          }
        }
      }
      var high := FlagCorrelations(correlations);
      flags := flags + high;
    }
    ruling := Ruling(verdict, action, quantity);
  }

  /** The explainer's trigger: a budget flag is raised exactly when the budget changed the
      ruling in what it executes. */
  lemma BudgetFlagMeansChangedTrade(p: Proposal, held: int, input: VarInput)
    requires 0 <= held
    ensures
      var flags := BudgetFlags(p, held, input);
      (VarBudgetVeto in flags || VarBudgetScale in flags)
        <==> Decide(p, held, Limit(input)) != V1Rules(p, held)
  {
  }

  /** The recorded verdict says what became of the proposal: VETO if a proposed trade is held back
      altogether, SCALE, with the quantity that remains, if only less of it goes through, and APPROVE
      if it goes through as proposed or nothing was proposed. */
  lemma VerdictSaysWhatHappened(p: Proposal, held: int, limit: Option<int>)
    requires 0 <= held
    ensures
      var r, proposed := Decide(p, held, limit), p.action != HOLD && p.quantity != 0;
      && (r.verdict.opinion == VETO <==> proposed && r.action == HOLD)
      && (r.verdict.opinion == SCALE <==> proposed && r.action == p.action && r.quantity < p.quantity)
      && (r.verdict.opinion == APPROVE <==>
            if proposed then r.action == p.action && r.quantity == p.quantity else r.action == HOLD && r.quantity == 0)
      && r.verdict.adjusted == if r.verdict.opinion == SCALE then Some(r.quantity) else None
  {
  }

  /** A holding is flagged exactly when its correlation is known and above 0.8. */
  lemma {:induction false} FlaggedExactlyWhenAbove(rhos: seq<(string, Option<real>)>, other: string)
    ensures HighCorrelation(other) in CorrelationFlags(rhos) <==>
              exists i :: 0 <= i < |rhos| && rhos[i].0 == other && rhos[i].1.Some? && rhos[i].1.value > 0.8
  {
    if rhos != [] {
      FlaggedExactlyWhenAbove(rhos[..|rhos| - 1], other);
    }
  }

  /** A position is flagged as over budget exactly when there is a VaR and it exceeds the day's limit, and
      a missing VaR is flagged exactly when there is a price source but too little history. */
  lemma FlagsSayWhatIsKnown(p: Proposal, held: int, input: VarInput)
    ensures OverVarBudget in BudgetFlags(p, held, input) <==> input.Known? && held > VarMaxQty(input.var95)
    ensures VarUnavailable in BudgetFlags(p, held, input) <==> input.NoHistory?
  {
    hide VarMaxQty;
  }
}
