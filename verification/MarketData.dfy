/** What an agent may see at a decision: daily bars whose session has closed, and headlines that
    were available, before `as_of`. Stored stamps are UTC seconds; New York is 4 or 5 hours behind. */
module MarketData {
  import opened Dates

  /** New York's distance behind UTC, at an instant and at a local time. */
  datatype Zone = Zone(behindAt: int -> int, behindLocal: int -> int)

  predicate IsOffset(seconds: int) {
    seconds == 4 * 3600 || seconds == 5 * 3600
  }

  ghost predicate NewYork(z: Zone) {
    (forall t :: IsOffset(z.behindAt(t))) && (forall l :: IsOffset(z.behindLocal(l)))
  }

  function UtcDate(t: int): int {
    t / DAY_SECONDS
  }

  function NyDate(z: Zone, t: int): int {
    (t - z.behindAt(t)) / DAY_SECONDS
  }

  function FromLocal(z: Zone, local: int): int {
    local + z.behindLocal(local)
  }

  function Filter<T>(xs: seq<T>, p: T -> bool): seq<T> {
    if xs == [] then [] else (if p(xs[0]) then [xs[0]] else []) + Filter(xs[1..], p)
  }

  lemma {:induction false} FilterAgrees<T(!new)>(xs: seq<T>, p: T -> bool, q: T -> bool)
    requires forall x :: p(x) <==> q(x)
    ensures Filter(xs, p) == Filter(xs, q)
  {
    if xs != [] {
      FilterAgrees(xs[1..], p, q);
    }
  }

  lemma {:induction false} FilterTwice<T(!new)>(xs: seq<T>, weak: T -> bool, strong: T -> bool)
    requires forall x :: strong(x) ==> weak(x)
    ensures Filter(Filter(xs, weak), strong) == Filter(xs, strong)
  {
    if xs != [] {
      FilterTwice(xs[1..], weak, strong);
      var rest := Filter(xs[1..], weak);
      if weak(xs[0]) {
        assert ([xs[0]] + rest)[1..] == rest;
      } else {
        assert Filter(xs, weak) == rest;
      }
    }
  }

  // ---------------------------------------------------------------- bars

  type Price = x: real | x > 0.0 witness 1.0

  /** A daily bar. */
  datatype Bar = Bar(stamp: int, open: Price, close: Price)

  /** The bar's session closes at 16:00 New York time. */
  function ClosedAt(z: Zone, b: Bar): int {
    FromLocal(z, NyDate(z, b.stamp) * DAY_SECONDS + 16 * 3600)
  }

  function ClosedBars(z: Zone, bars: seq<Bar>, asOf: int): seq<Bar> {
    Filter(bars, b => ClosedAt(z, b) <= asOf)
  }

  lemma {:induction false} FilterAppend<T>(xs: seq<T>, x: T, p: T -> bool)
    ensures Filter(xs + [x], p) == Filter(xs, p) + if p(x) then [x] else []
  {
    if xs == [] {
      assert xs + [x] == [x] && [x][1..] == [];
    } else {
      var rest := xs[1..] + [x];
      assert (xs + [x])[0] == xs[0] && (xs + [x])[1..] == rest;
      FilterAppend(xs[1..], x, p);
      var head, last := if p(xs[0]) then [xs[0]] else [], if p(x) then [x] else [];
      assert Filter(xs + [x], p) == head + Filter(rest, p);
      assert head + (Filter(xs[1..], p) + last) == (head + Filter(xs[1..], p)) + last;
    }
  }

  method BarsClosedBefore(z: Zone, bars: seq<Bar>, asOf: int) returns (kept: seq<Bar>)
    ensures kept == ClosedBars(z, bars, asOf)
  {
    kept := [];
    var i := 0;
    while i < |bars|
      invariant 0 <= i <= |bars|
      invariant kept == ClosedBars(z, bars[..i], asOf)
    {
      var sessionDay := NyDate(z, bars[i].stamp);
      var closedAt := FromLocal(z, sessionDay * DAY_SECONDS + 16 * 3600);
      assert bars[..i + 1] == bars[..i] + [bars[i]];
      FilterAppend(bars[..i], bars[i], b => ClosedAt(z, b) <= asOf);
      if closedAt <= asOf {
        kept := kept + [bars[i]];
      }
      i := i + 1;
    }
    assert bars[..i] == bars;
  }

  /** A backtest decision for a day sees exactly the bars of earlier sessions. */
  lemma DecisionSeesEarlierSessions(z: Zone, b: Bar, day: int)
    requires NewYork(z)
    ensures ClosedAt(z, b) <= AsOf(day) <==> NyDate(z, b.stamp) < day
  {
    assert IsOffset(z.behindLocal(NyDate(z, b.stamp) * DAY_SECONDS + 16 * 3600));
  }

  // ---------------------------------------------------------------- headlines

  datatype Headline = Headline(id: int, symbol: string, stamp: int, text: string)

  /** Stamped exactly 00:00 UTC: a date, not a time. */
  predicate DateOnly(h: Headline) {
    h.stamp % DAY_SECONDS == 0
  }

  /** When a headline could first have been read. */
  function AvailableAt(z: Zone, h: Headline): int {
    if DateOnly(h) then FromLocal(z, (UtcDate(h.stamp) + 1) * DAY_SECONDS) else h.stamp
  }

  /** The calendar date a headline belongs to. */
  function HeadlineDate(z: Zone, h: Headline): int {
    if DateOnly(h) then UtcDate(h.stamp) else NyDate(z, h.stamp)
  }

  /** Visible to the Sentiment Analyst, with a look-back in days. */
  predicate Recent(z: Zone, h: Headline, asOf: int, lookback: int) {
    asOf - lookback * DAY_SECONDS <= AvailableAt(z, h) < asOf
  }

  /** The plain stamp bounds of that query. */
  predicate RecentScan(h: Headline, asOf: int, lookback: int) {
    asOf - (lookback + 2) * DAY_SECONDS <= h.stamp < asOf
  }

  /** Retrieved by the explainer for a driver day. */
  predicate Around(z: Zone, h: Headline, day: int, asOf: int) {
    day - 1 <= HeadlineDate(z, h) <= day && AvailableAt(z, h) < asOf
  }

  predicate AroundScan(h: Headline, day: int) {
    (day - 2) * DAY_SECONDS <= h.stamp < (day + 2) * DAY_SECONDS
  }

  lemma AvailabilityLag(z: Zone, h: Headline)
    requires NewYork(z)
    ensures h.stamp <= AvailableAt(z, h) < h.stamp + 2 * DAY_SECONDS
  {
    assert IsOffset(z.behindLocal((UtcDate(h.stamp) + 1) * DAY_SECONDS));
  }

  /** Neither query's stamp bounds drop a row that its real conditions keep, so both queries return
      the same rows, in the same order, with or without them. */
  lemma ScanBoundsAreLossless(z: Zone, headlines: seq<Headline>, asOf: int, lookback: int, day: int)
    requires NewYork(z)
    ensures Filter(headlines, h => Recent(z, h, asOf, lookback) && RecentScan(h, asOf, lookback))
         == Filter(headlines, h => Recent(z, h, asOf, lookback))
    ensures Filter(headlines, h => Around(z, h, day, asOf) && AroundScan(h, day))
         == Filter(headlines, h => Around(z, h, day, asOf))
  {
    forall h ensures Recent(z, h, asOf, lookback) ==> RecentScan(h, asOf, lookback) {
      AvailabilityLag(z, h);
    }
    forall h ensures Around(z, h, day, asOf) ==> AroundScan(h, day) {
      assert IsOffset(z.behindAt(h.stamp));
    }
    FilterAgrees(headlines,
                 h => Recent(z, h, asOf, lookback) && RecentScan(h, asOf, lookback),
                 h => Recent(z, h, asOf, lookback));
    FilterAgrees(headlines, h => Around(z, h, day, asOf) && AroundScan(h, day), h => Around(z, h, day, asOf));
  }

  /** With the three-day look-back, the date-only headlines visible on day D are exactly those dated
      D-3 to D-1. */
  lemma VisibleDateOnlyHeadlines(z: Zone, h: Headline, day: int)
    requires NewYork(z) && DateOnly(h)
    ensures Recent(z, h, AsOf(day), 3) <==> day - 3 <= HeadlineDate(z, h) <= day - 1
  {
    assert IsOffset(z.behindLocal((UtcDate(h.stamp) + 1) * DAY_SECONDS));
  }

  /** No headline dated the decision day or later is ever visible, whichever way it is stamped,
      unless it carries a real time before the decision. */
  lemma NoLookAhead(z: Zone, h: Headline, day: int, lookback: int)
    requires NewYork(z) && Recent(z, h, AsOf(day), lookback)
    ensures HeadlineDate(z, h) < day || (!DateOnly(h) && h.stamp < AsOf(day))
  {
    assert IsOffset(z.behindLocal((UtcDate(h.stamp) + 1) * DAY_SECONDS));
  }

  /** A session closes at 20:00 or 21:00 UTC of its day: its bar is never visible before, and always
      after. */
  lemma SessionClosesInTheEvening(z: Zone, b: Bar, t: int)
    requires NewYork(z)
    ensures
      var midnight := NyDate(z, b.stamp) * DAY_SECONDS;
      && (ClosedAt(z, b) == midnight + 20 * 3600 || ClosedAt(z, b) == midnight + 21 * 3600)
      && (t < midnight + 20 * 3600 ==> !(ClosedAt(z, b) <= t))
      && (t >= midnight + 21 * 3600 ==> ClosedAt(z, b) <= t)
  {
    assert IsOffset(z.behindLocal(NyDate(z, b.stamp) * DAY_SECONDS + 16 * 3600));
  }

  /** A headline with a real time is visible by that time alone, and belongs to its New York date. */
  lemma TimedHeadlinesAreVisibleByTheirStamp(z: Zone, h: Headline, asOf: int, lookback: int, day: int)
    requires !DateOnly(h)
    ensures Recent(z, h, asOf, lookback) <==> asOf - lookback * DAY_SECONDS <= h.stamp < asOf
    ensures Around(z, h, day, asOf) <==> day - 1 <= NyDate(z, h.stamp) <= day && h.stamp < asOf
  {
  }

  /** A date-only headline is retrieved for its own and the next day, from the day after its date on. */
  lemma DatedHeadlinesAreRetrieved(z: Zone, h: Headline, day: int, decision: int)
    requires NewYork(z) && DateOnly(h)
    ensures Around(z, h, day, AsOf(decision)) <==>
              day - 1 <= h.stamp / DAY_SECONDS <= day && h.stamp / DAY_SECONDS < decision
  {
    assert IsOffset(z.behindLocal((UtcDate(h.stamp) + 1) * DAY_SECONDS));
  }

  /** An instant belongs to the New York day whose midnight, shifted by the distance to UTC, is the last
      one before it. */
  lemma NewYorkDaysRunFromMidnight(z: Zone, t: int, day: int)
    ensures NyDate(z, t) == day <==> day * DAY_SECONDS + z.behindAt(t) <= t < (day + 1) * DAY_SECONDS + z.behindAt(t)
  {
  }
}
