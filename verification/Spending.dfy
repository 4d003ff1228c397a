/** Token usage, its price, and the spending cap that stops a process before a day. */
module Spending {
  import opened Trading

  datatype Counts = Counts(input: nat, output: nat, total: nat)

  /** One model's entry of a usage dictionary; a dictionary lists each model once. */
  datatype Entry = Entry(model: string, counts: Counts)

  datatype Price = Price(prefix: string, input: real, output: real)

  /** USD per million tokens. */
  const PRICES_PER_MTOK: seq<Price> := [
    Price("claude-sonnet-5-5", 2.0, 10.0),
    Price("claude-haiku-4-5", 1.0, 5.0),
    Price("claude-opus-5-5", 4.0, 20.0),
    Price("fake", 0.0, 0.0)]

  // ---------------------------------------------------------------- pricing

  /** The longest listed prefix of the model's name, if any. */
  function PriceOf(model: string, prices: seq<Price>): (best: Option<Price>)
    ensures best.None? <==> forall p :: p in prices ==> !(p.prefix <= model)
    ensures best.Some? ==> best.value in prices && best.value.prefix <= model
    ensures best.Some? ==> forall p :: p in prices && p.prefix <= model ==> |p.prefix| <= |best.value.prefix|
  {
    if prices == [] then None
    else
      var p, rest := prices[|prices| - 1], PriceOf(model, prices[..|prices| - 1]);
      if p.prefix <= model && (rest.None? || |p.prefix| > |rest.value.prefix|) then Some(p) else rest
  }

  function CostAt(c: Counts, p: Price): real {
    c.input as real / 1_000_000.0 * p.input + c.output as real / 1_000_000.0 * p.output
  }

  /** A million input tokens cost the first rate, a million output tokens the second. */
  lemma RatesArePerMillion(total: nat, p: Price)
    ensures CostAt(Counts(1_000_000, 0, total), p) == p.input
    ensures CostAt(Counts(0, 1_000_000, total), p) == p.output
  {
  }

  function Plus(a: Option<real>, b: Option<real>): Option<real> {
    if a.None? || b.None? then None else Some(a.value + b.value)
  }

  lemma PlusAssociates(a: Option<real>, b: Option<real>, c: Option<real>)
    ensures Plus(Plus(a, b), c) == Plus(a, Plus(b, c))
    ensures Plus(a, Some(0.0)) == a
  {
  }

  function EntryCost(e: Entry, prices: seq<Price>): Option<real> {
    var price := PriceOf(e.model, prices);
    if price.None? then None else Some(CostAt(e.counts, price.value))
  }

  /** None is the KeyError for a model without a price. */
  function Cost(usage: seq<Entry>, prices: seq<Price>): Option<real> {
    if usage == [] then Some(0.0)
    else Plus(Cost(usage[..|usage| - 1], prices), EntryCost(usage[|usage| - 1], prices))
  }

  // ---------------------------------------------------------------- merging

  function AddCounts(a: Counts, b: Counts): Counts {
    Counts(a.input + b.input, a.output + b.output, a.total + b.total)
  }

  const ZERO := Counts(0, 0, 0)

  lemma AddCountsLaws(a: Counts, b: Counts, c: Counts)
    ensures AddCounts(AddCounts(a, b), c) == AddCounts(a, AddCounts(b, c))
    ensures AddCounts(a, b) == AddCounts(b, a)
    ensures AddCounts(a, ZERO) == a
  {
  }

  /** The tokens a usage dictionary lists for a model. */
  function CountOf(usage: seq<Entry>, model: string): Counts {
    if usage == [] then ZERO
    else if usage[0].model == model then AddCounts(usage[0].counts, CountOf(usage[1..], model))
    else CountOf(usage[1..], model)
  }

  function AddEntry(usage: seq<Entry>, e: Entry): seq<Entry> {
    if usage == [] then [e]
    else if usage[0].model == e.model then [Entry(e.model, AddCounts(usage[0].counts, e.counts))] + usage[1..]
    else [usage[0]] + AddEntry(usage[1..], e)
  }

  function Merge(a: seq<Entry>, b: seq<Entry>): seq<Entry> {
    if b == [] then a else AddEntry(Merge(a, b[..|b| - 1]), b[|b| - 1])
  }

  lemma {:induction false} CountOfAppend(usage: seq<Entry>, e: Entry, model: string)
    ensures CountOf(usage + [e], model) == AddCounts(CountOf(usage, model), if e.model == model then e.counts else ZERO)
  {
    hide AddCounts;
    AddCountsLaws(ZERO, e.counts, ZERO);
    AddCountsLaws(e.counts, ZERO, ZERO);
    if usage == [] {
      assert usage + [e] == [e] && [e][1..] == [];
    } else {
      assert (usage + [e])[1..] == usage[1..] + [e];
      CountOfAppend(usage[1..], e, model);
      AddCountsLaws(usage[0].counts, CountOf(usage[1..], model), if e.model == model then e.counts else ZERO);
    }
  }

  lemma {:induction false} AddEntryCounts(usage: seq<Entry>, e: Entry, model: string)
    ensures CountOf(AddEntry(usage, e), model) == CountOf(usage + [e], model)
  {
    hide AddCounts;
    if usage == [] {
      assert usage + [e] == [e];
    } else {
      assert (usage + [e])[1..] == usage[1..] + [e];
      if usage[0].model == e.model {
        CountOfAppend(usage[1..], e, model);
        AddCountsLaws(usage[0].counts, e.counts, CountOf(usage[1..], model));
        AddCountsLaws(e.counts, CountOf(usage[1..], model), ZERO);
        AddCountsLaws(CountOf(usage[1..], model), ZERO, ZERO);
        assert AddEntry(usage, e)[1..] == usage[1..];
      } else {
        assert AddEntry(usage, e)[1..] == AddEntry(usage[1..], e);
        AddEntryCounts(usage[1..], e, model);
      }
    }
  }

  /** Merging adds the token counts of every model. */
  lemma {:induction false} MergeAddsCounts(a: seq<Entry>, b: seq<Entry>, model: string)
    ensures CountOf(Merge(a, b), model) == AddCounts(CountOf(a, model), CountOf(b, model))
  {
    hide AddCounts, AddEntry, CountOf;
    if b == [] {
      assert CountOf(b, model) == ZERO by { NoTokens(model); }
      AddCountsLaws(CountOf(a, model), ZERO, ZERO);
    } else {
      var n := |b| - 1;
      var extra := if b[n].model == model then b[n].counts else ZERO;
      MergeAddsCounts(a, b[..n], model);
      AddEntryCounts(Merge(a, b[..n]), b[n], model);
      CountOfAppend(Merge(a, b[..n]), b[n], model);
      assert b == b[..n] + [b[n]];
      CountOfAppend(b[..n], b[n], model);
      AddCountsLaws(CountOf(a, model), CountOf(b[..n], model), extra);
    }
  }

  lemma NoTokens(model: string)
    ensures CountOf([], model) == ZERO
  {
  }

  lemma Scaled(a: nat, b: nat, rate: real)
    ensures (a + b) as real / 1_000_000.0 * rate == a as real / 1_000_000.0 * rate + b as real / 1_000_000.0 * rate
  {
    var x, y := a as real / 1_000_000.0, b as real / 1_000_000.0;
    assert (a + b) as real / 1_000_000.0 == x + y;
    assert (x + y) * rate == x * rate + y * rate;
  }

  lemma CostAtAdds(a: Counts, b: Counts, p: Price)
    ensures CostAt(AddCounts(a, b), p) == CostAt(a, p) + CostAt(b, p)
  {
    Scaled(a.input, b.input, p.input);
    Scaled(a.output, b.output, p.output);
  }

  lemma EntryCostAdds(model: string, a: Counts, b: Counts, prices: seq<Price>)
    ensures EntryCost(Entry(model, AddCounts(a, b)), prices)
        == Plus(EntryCost(Entry(model, a), prices), EntryCost(Entry(model, b), prices))
  {
    hide CostAt, AddCounts;
    var price := PriceOf(model, prices);
    if price.Some? {
      CostAtAdds(a, b, price.value);
    }
  }

  lemma CostAppend(usage: seq<Entry>, e: Entry, prices: seq<Price>)
    ensures Cost(usage + [e], prices) == Plus(Cost(usage, prices), EntryCost(e, prices))
  {
    hide EntryCost;
    assert (usage + [e])[..|usage|] == usage;
  }

  lemma {:induction false} CostFront(e: Entry, usage: seq<Entry>, prices: seq<Price>)
    ensures Cost([e] + usage, prices) == Plus(EntryCost(e, prices), Cost(usage, prices))
  {
    hide EntryCost, Plus;
    PlusAssociates(EntryCost(e, prices), Some(0.0), Some(0.0));
    if usage == [] {
      assert [e] + usage == [] + [e];
      CostAppend([], e, prices);
      assert Plus(Some(0.0), EntryCost(e, prices)) == EntryCost(e, prices) by { ZeroPlus(EntryCost(e, prices)); }
    } else {
      var n := |usage| - 1;
      CostFront(e, usage[..n], prices);
      assert [e] + usage == ([e] + usage[..n]) + [usage[n]];
      CostAppend([e] + usage[..n], usage[n], prices);
      PlusAssociates(EntryCost(e, prices), Cost(usage[..n], prices), EntryCost(usage[n], prices));
    }
  }

  lemma ZeroPlus(a: Option<real>)
    ensures Plus(Some(0.0), a) == a
  {
  }

  lemma PlusSwaps(a: Option<real>, b: Option<real>, c: Option<real>)
    ensures Plus(Plus(a, b), c) == Plus(a, Plus(c, b))
  {
  }

  lemma {:induction false} AddEntryCost(usage: seq<Entry>, e: Entry, prices: seq<Price>)
    ensures Cost(AddEntry(usage, e), prices) == Plus(Cost(usage, prices), EntryCost(e, prices))
  {
    hide EntryCost, Plus, AddCounts;
    if usage == [] {
      assert [e] == [] + [e];
      CostAppend([], e, prices);
    } else {
      var head, tail := usage[0], usage[1..];
      assert usage == [head] + tail;
      CostFront(head, tail, prices);
      hide Cost;
      if head.model == e.model {
        CostFront(Entry(e.model, AddCounts(head.counts, e.counts)), tail, prices);
        EntryCostAdds(e.model, head.counts, e.counts, prices);
        PlusSwaps(EntryCost(head, prices), EntryCost(e, prices), Cost(tail, prices));
        PlusAssociates(EntryCost(head, prices), Cost(tail, prices), EntryCost(e, prices));
        assert head == Entry(e.model, head.counts) && e == Entry(e.model, e.counts);
      } else {
        AddEntryCost(tail, e, prices);
        CostFront(head, AddEntry(tail, e), prices);
        PlusAssociates(EntryCost(head, prices), Cost(tail, prices), EntryCost(e, prices));
      }
    }
  }

  /** The merged usage costs what its parts cost, and is unpriced exactly when one of them is. */
  lemma {:induction false} CostIsAdditive(a: seq<Entry>, b: seq<Entry>, prices: seq<Price>)
    ensures Cost(Merge(a, b), prices) == Plus(Cost(a, prices), Cost(b, prices))
  {
    PlusAssociates(Cost(a, prices), Some(0.0), Some(0.0));
    if b != [] {
      hide EntryCost, AddEntry, Plus;
      var n := |b| - 1;
      CostIsAdditive(a, b[..n], prices);
      AddEntryCost(Merge(a, b[..n]), b[n], prices);
      PlusAssociates(Cost(a, prices), Cost(b[..n], prices), EntryCost(b[n], prices));
    }
  }

  /** A model's slot gains the counts; a missing slot is created at the end. */
  method AddToSlot(usage: seq<Entry>, e: Entry) returns (total: seq<Entry>)
    ensures total == AddEntry(usage, e)
  {
    hide AddCounts;
    var slot := 0;
    while slot < |usage| && usage[slot].model != e.model
      invariant 0 <= slot <= |usage|
      invariant AddEntry(usage, e) == usage[..slot] + AddEntry(usage[slot..], e)
    {
      assert usage[slot..][1..] == usage[slot + 1..];
      assert usage[..slot + 1] == usage[..slot] + [usage[slot]];
      slot := slot + 1;
    }
    if slot < |usage| {
      assert usage[slot..][1..] == usage[slot + 1..];
      total := usage[slot := Entry(e.model, AddCounts(usage[slot].counts, e.counts))];
    } else {
      total := usage + [e];
    }
  }

  /** `_add_usage`: the earlier part's dictionary is copied and each model's counts added to it. */
  method AddUsage(a: Option<seq<Entry>>, b: seq<Entry>) returns (total: seq<Entry>)
    ensures total == Merge(if a.Some? then a.value else [], b)
  {
    hide AddEntry;
    total := if a.Some? then a.value else [];
    var i := 0;
    while i < |b|
      invariant 0 <= i <= |b|
      invariant total == Merge(if a.Some? then a.value else [], b[..i])
    {
      assert b[..i + 1][..i] == b[..i];
      total := AddToSlot(total, b[i]);
      i := i + 1;
    }
    assert b[..i] == b;
  }

  method UsageCostUsd(usage: seq<Entry>) returns (total: Option<real>)
    ensures total == Cost(usage, PRICES_PER_MTOK)
  {
    hide EntryCost;
    total := Some(0.0);
    var i := 0;
    while i < |usage|
      invariant 0 <= i <= |usage|
      invariant total == Cost(usage[..i], PRICES_PER_MTOK)
    {
      assert usage[..i + 1][..i] == usage[..i];
      total := Plus(total, EntryCost(usage[i], PRICES_PER_MTOK));
      i := i + 1;
    }
    assert usage[..i] == usage;
  }

  // ---------------------------------------------------------------- the cap

  /** What a process's callback handler holds after some days, each given by the usage it added. */
  function MergedUsage(days: seq<seq<Entry>>): seq<Entry> {
    if days == [] then [] else Merge(MergedUsage(days[..|days| - 1]), days[|days| - 1])
  }

  /** What a usage costs at the listed prices. */
  function DayCost(usage: seq<Entry>): Option<real> {
    Cost(usage, PRICES_PER_MTOK)
  }

  /** The costs of the days, added up; None if a model of some day has no price. */
  function Spent(days: seq<seq<Entry>>): Option<real> {
    if days == [] then Some(0.0) else Plus(Spent(days[..|days| - 1]), DayCost(days[|days| - 1]))
  }

  /** Pricing the merged usage of a process adds up the costs of its days. */
  lemma {:induction false} MergedUsageCostsItsDays(days: seq<seq<Entry>>)
    ensures DayCost(MergedUsage(days)) == Spent(days)
  {
    if days != [] {
      var n := |days| - 1;
      MergedUsageCostsItsDays(days[..n]);
      hide Merge, Cost;
      CostIsAdditive(MergedUsage(days[..n]), days[n], PRICES_PER_MTOK);
    }
  }

  lemma MergedUsageAppend(days: seq<seq<Entry>>, day: seq<Entry>)
    ensures MergedUsage(days + [day]) == Merge(MergedUsage(days), day)
  {
    assert (days + [day])[..|days|] == days;
  }

  function Mean(total: real, n: nat): real
    requires n > 0
  {
    total / n as real
  }

  /** Before a day: go on, stop at the cap, or fail on a model without a price. */
  datatype Verdict = GoOn | CapReached | Unpriced

  /** The check before the day after `done` days, with the usage they left. */
  function Check(usage: seq<Entry>, done: nat, cap: Option<real>): Verdict {
    if cap.None? || done == 0 then GoOn
    else
      match DayCost(usage)
      case None => Unpriced
      case Some(spent) => if spent + Mean(spent, done) > cap.value then CapReached else GoOn
  }

  method CheckCap(usage: seq<Entry>, done: nat, cap: Option<real>) returns (verdict: Verdict)
    ensures verdict == Check(usage, done, cap)
  {
    hide Cost;
    if cap.None? || done == 0 {
      return GoOn;
    }
    var spent := UsageCostUsd(usage);
    if spent.None? {
      return Unpriced;
    }
    if spent.value + spent.value / done as real > cap.value {
      return CapReached;
    }
    return GoOn;
  }

  function CheckAfter(days: seq<seq<Entry>>, cap: Option<real>): Verdict {
    Check(MergedUsage(days), |days|, cap)
  }

  /** What the check means for the days: they are priced, and their mean once more stays within. */
  lemma GoOnExactlyWhen(days: seq<seq<Entry>>, cap: real)
    requires days != []
    ensures CheckAfter(days, Some(cap)) == GoOn <==>
              Spent(days).Some? && Spent(days).value + Mean(Spent(days).value, |days|) <= cap
    ensures CheckAfter(days, Some(cap)) == Unpriced <==> Spent(days).None?
  {
    MergedUsageCostsItsDays(days);
    hide DayCost, MergedUsage, Spent, Mean;
  }

  /** The check never speaks before the first day, and never without a cap. */
  lemma NoCheckWithoutDaysOrCap(days: seq<seq<Entry>>, cap: Option<real>)
    ensures CheckAfter([], cap) == GoOn && CheckAfter(days, None) == GoOn
  {
    hide DayCost;
  }

  /** A mean times its count is the total. */
  lemma MeanIsAShare(total: real, n: nat)
    requires n > 0
    ensures Mean(total, n) * n as real == total
  {
  }

  /** At most the cap is spent, plus what the last day cost above the mean of the days before. */
  predicate WithinCap(days: seq<seq<Entry>>, cap: real)
    requires |days| >= 2
  {
    var n := |days| - 1;
    var before, last := Spent(days[..n]), DayCost(days[n]);
    && before.Some?
    && match DayCost(MergedUsage(days))
       case None => last.None?
       case Some(spent) => last.Some? && spent <= cap + (last.value - Mean(before.value, n))
  }

  /** THE SPENDING CAP. If the check let the last of at least two days start, the usage the process
      ends with is priced above the cap by no more than that day's excess over the mean of the days
      before it; it is unpriced only if the last day is. */
  lemma CapBoundsSpending(days: seq<seq<Entry>>, cap: real)
    requires |days| >= 2 && CheckAfter(days[..|days| - 1], Some(cap)) == GoOn
    ensures WithinCap(days, cap)
  {
    MergedUsageCostsItsDays(days);
    GoOnExactlyWhen(days[..|days| - 1], cap);
    hide DayCost, MergedUsage, Mean, CheckAfter;
  }

  // ---------------------------------------------------------------- equal days

  /** Every day costs c. */
  ghost predicate EqualDays(days: seq<seq<Entry>>, c: real) {
    forall i :: 0 <= i < |days| ==> DayCost(days[i]) == Some(c)
  }

  lemma EqualDaysPrefix(days: seq<seq<Entry>>, c: real, n: nat)
    requires EqualDays(days, c) && n <= |days|
    ensures EqualDays(days[..n], c)
  {
    hide DayCost;
  }

  lemma OneMore(c: real, n: nat)
    ensures c * n as real + c == c * (n + 1) as real
  {
    assert (n + 1) as real == n as real + 1.0;
  }

  lemma {:induction false} SpentOnEqualDays(days: seq<seq<Entry>>, c: real)
    requires EqualDays(days, c)
    ensures Spent(days) == Some(c * |days| as real)
  {
    hide DayCost;
    if days != [] {
      var n := |days| - 1;
      EqualDaysPrefix(days, c, n);
      assert DayCost(days[n]) == Some(c);
      hide EqualDays;
      SpentOnEqualDays(days[..n], c);
      OneMore(c, n);
    }
  }

  lemma DivisionCancels(c: real, m: real)
    requires m != 0.0
    ensures c * m / m == c
  {
  }

  lemma MeanOfEqual(total: real, c: real, n: nat)
    requires n > 0 && total == c * n as real
    ensures Mean(total, n) == c
  {
    DivisionCancels(c, n as real);
  }

  lemma EqualDaysCheck(days: seq<seq<Entry>>, c: real, cap: real)
    requires days != [] && EqualDays(days, c)
    ensures Spent(days).Some?
    ensures CheckAfter(days, Some(cap)) == (if Spent(days).value + c > cap then CapReached else GoOn)
  {
    hide EqualDays, Spent, CheckAfter;
    SpentOnEqualDays(days, c);
    MeanOfEqual(Spent(days).value, c, |days|);
    GoOnExactlyWhen(days, cap);
    hide Mean;
  }

  /** With equal daily costs no larger than the cap, a process never passes the cap, and it stops
      exactly when one more day would. */
  lemma EqualDaysNeverCross(days: seq<seq<Entry>>, c: real, cap: real)
    requires days != [] && EqualDays(days, c)
    requires c <= cap && forall i :: 0 < i < |days| ==> CheckAfter(days[..i], Some(cap)) == GoOn
    ensures
      var spent := DayCost(MergedUsage(days));
      && spent.Some? && spent.value <= cap
      && CheckAfter(days, Some(cap)) == if spent.value + c > cap then CapReached else GoOn
  {
    hide DayCost, CheckAfter, MergedUsage;
    var n := |days| - 1;
    MergedUsageCostsItsDays(days);
    EqualDaysCheck(days, c, cap);
    EqualDaysPrefix(days, c, n);
    SpentOnEqualDays(days[..n], c);
    assert DayCost(days[n]) == Some(c);
    hide EqualDays;
    if n > 0 {
      assert EqualDays(days[..n], c);
      EqualDaysCheck(days[..n], c, cap);
    } else {
      assert Spent(days[..n]) == Some(0.0);
    }
    assert Spent(days) == Plus(Spent(days[..n]), Some(c));
    hide Spent;
  }

  // ---------------------------------------------------------------- totals

  /** All tokens of a usage dictionary. */
  function TokensOf(usage: seq<Entry>): nat {
    if usage == [] then 0 else usage[0].counts.total + TokensOf(usage[1..])
  }

  lemma {:induction false} AddEntryTokens(usage: seq<Entry>, e: Entry)
    ensures TokensOf(AddEntry(usage, e)) == TokensOf(usage) + e.counts.total
  {
    if usage != [] {
      if usage[0].model == e.model {
        assert AddEntry(usage, e)[1..] == usage[1..];
      } else {
        AddEntryTokens(usage[1..], e);
        assert AddEntry(usage, e)[1..] == AddEntry(usage[1..], e);
      }
    } else {
      assert [e][1..] == [];
    }
  }

  lemma {:induction false} TokensAppend(usage: seq<Entry>, e: Entry)
    ensures TokensOf(usage + [e]) == TokensOf(usage) + e.counts.total
  {
    if usage == [] {
      assert usage + [e] == [e] && [e][1..] == [];
    } else {
      assert (usage + [e])[1..] == usage[1..] + [e];
      TokensAppend(usage[1..], e);
    }
  }

  /** Merging keeps every token. */
  lemma {:induction false} MergeAddsTokens(a: seq<Entry>, b: seq<Entry>)
    ensures TokensOf(Merge(a, b)) == TokensOf(a) + TokensOf(b)
  {
    if b != [] {
      var n := |b| - 1;
      MergeAddsTokens(a, b[..n]);
      AddEntryTokens(Merge(a, b[..n]), b[n]);
      TokensAppend(b[..n], b[n]);
      assert b == b[..n] + [b[n]];
      hide TokensOf, AddEntry;
    }
  }
}
