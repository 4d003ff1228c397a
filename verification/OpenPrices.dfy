/** The book of opening prices a backtest fills at: fetched once per symbol for the whole window and
    cached. */
module OpenPrices {
  import opened Trading
  import opened Dates
  import opened MarketData

  predicate Stamped(b: Bar, asOf: int, lookbackDays: int) {
    asOf - lookbackDays * DAY_SECONDS <= b.stamp <= asOf
  }

  /** Bars of a symbol stamped in a range, as the vendor returns them, less those not yet closed. */
  function Fetch(z: Zone, bars: seq<Bar>, asOf: int, lookbackDays: int): seq<Bar> {
    ClosedBars(z, Filter(bars, b => Stamped(b, asOf, lookbackDays)), asOf)
  }

  /** The last bar of each New York date wins, as in a dictionary built in order. */
  function OpensOf(z: Zone, bars: seq<Bar>): map<int, real> {
    if bars == [] then map[]
    else
      var last := bars[|bars| - 1];
      OpensOf(z, bars[..|bars| - 1])[NyDate(z, last.stamp) := last.open]
  }

  function WindowOpens(z: Zone, bars: seq<Bar>, first: int, last: int): map<int, real> {
    OpensOf(z, Fetch(z, bars, AsOf(last + 1), last + 1 - first + 7))
  }

  class OpenPriceBook {
    const zone: Zone
    const source: string -> seq<Bar>
    const first: int
    const last: int
    var opens: map<string, map<int, real>>

    ghost predicate Valid()
      reads this
    {
      forall s :: s in opens ==> opens[s] == WindowOpens(zone, source(s), first, last)
    }

    constructor (zone: Zone, source: string -> seq<Bar>, first: int, last: int)
      ensures Valid() && opens == map[]
      ensures this.zone == zone && this.source == source && this.first == first && this.last == last
    {
      this.zone, this.source, this.first, this.last := zone, source, first, last;
      opens := map[];
    }

    /** The cache is invisible: every answer is the one a fresh fetch would give. */
    method OpenOn(symbol: string, day: int) returns (price: Option<real>)
      requires Valid()
      modifies this
      ensures Valid()
      ensures var fresh' := WindowOpens(zone, source(symbol), first, last);
              price == if day in fresh' then Some(fresh'[day]) else None
      ensures opens.Keys == old(opens).Keys + {symbol}
    {
      if symbol !in opens {
        opens := opens[symbol := WindowOpens(zone, source(symbol), first, last)];
      }
      price := if day in opens[symbol] then Some(opens[symbol][day]) else None;
    }
  }

  /** A daily bar stamped at midnight New York on its session day. */
  predicate AtMidnight(z: Zone, b: Bar) {
    b.stamp == NyDate(z, b.stamp) * DAY_SECONDS + z.behindAt(b.stamp)
  }

  /** The one fetch reaches every session of the window: none is cut off at either end. */
  lemma FetchCoversWindow(z: Zone, b: Bar, first: int, last: int)
    requires NewYork(z) && AtMidnight(z, b) && first <= NyDate(z, b.stamp) <= last
    ensures
      var asOf, lookback := AsOf(last + 1), last + 1 - first + 7;
      Stamped(b, asOf, lookback) && ClosedAt(z, b) <= asOf
  {
    assert IsOffset(z.behindAt(b.stamp));
    DecisionSeesEarlierSessions(z, b, last + 1);
  }

  lemma {:induction false} FilterKeeps<T>(xs: seq<T>, p: T -> bool, x: T)
    requires x in xs && p(x)
    ensures x in Filter(xs, p)
  {
    if xs[0] != x {
      FilterKeeps(xs[1..], p, x);
    }
  }

  lemma {:induction false} FilterAddsNothing<T>(xs: seq<T>, p: T -> bool, x: T)
    requires x in Filter(xs, p)
    ensures x in xs
  {
    if xs != [] && x in Filter(xs[1..], p) {
      FilterAddsNothing(xs[1..], p, x);
    }
  }

  /** Some bar of the list has this New York date and this open. */
  ghost predicate HasOpen(z: Zone, bars: seq<Bar>, day: int, open: real) {
    exists b :: b in bars && NyDate(z, b.stamp) == day && b.open == open
  }

  /** The dictionary has exactly the dates of the bars, each with the open of one of its bars. */
  lemma {:induction false} OpensAreOfTheBars(z: Zone, bars: seq<Bar>)
    ensures forall b :: b in bars ==> NyDate(z, b.stamp) in OpensOf(z, bars)
    ensures forall day :: day in OpensOf(z, bars) ==> HasOpen(z, bars, day, OpensOf(z, bars)[day])
  {
    if bars != [] {
      hide NyDate;
      var n := |bars| - 1;
      OpensAreOfTheBars(z, bars[..n]);
      assert bars == bars[..n] + [bars[n]];
      forall day | day in OpensOf(z, bars) ensures HasOpen(z, bars, day, OpensOf(z, bars)[day]) {
        if day == NyDate(z, bars[n].stamp) {
          assert bars[n] in bars;
        } else {
          var open := OpensOf(z, bars[..n])[day];
          assert HasOpen(z, bars[..n], day, open);
          var b :| b in bars[..n] && NyDate(z, b.stamp) == day && b.open == open;
          assert b in bars;
        }
      }
    }
  }

  lemma FetchedAreStored(z: Zone, bars: seq<Bar>, asOf: int, lookback: int, b: Bar)
    requires b in Fetch(z, bars, asOf, lookback)
    ensures b in bars
  {
    hide Stamped, ClosedAt, Filter;
    FilterAddsNothing(Filter(bars, x => Stamped(x, asOf, lookback)), x => ClosedAt(z, x) <= asOf, b);
    FilterAddsNothing(bars, x => Stamped(x, asOf, lookback), b);
  }

  /** So a session of the window whose bar the vendor has fills at an open of that very session, and at
      the bar's own open if its date has no other. */
  lemma EverySessionHasItsOpen(z: Zone, bars: seq<Bar>, b: Bar, first: int, last: int)
    requires NewYork(z) && b in bars && AtMidnight(z, b) && first <= NyDate(z, b.stamp) <= last
    ensures
      var day, opens := NyDate(z, b.stamp), WindowOpens(z, bars, first, last);
      && day in opens
      && HasOpen(z, bars, day, opens[day])
      && ((forall x :: x in bars && NyDate(z, x.stamp) == day ==> x.open == b.open) ==> opens[day] == b.open)
  {
    var asOf, lookback := AsOf(last + 1), last + 1 - first + 7;
    var fetched, day := Fetch(z, bars, asOf, lookback), NyDate(z, b.stamp);
    SessionIsFetched(z, bars, b, first, last);
    OpensAreOfTheBars(z, fetched);
    hide Fetch, OpensOf, NyDate, AtMidnight, NewYork;
    var x :| x in fetched && NyDate(z, x.stamp) == day && x.open == OpensOf(z, fetched)[day];
    FetchedAreStored(z, bars, asOf, lookback, x);
  }

  lemma SessionIsFetched(z: Zone, bars: seq<Bar>, b: Bar, first: int, last: int)
    requires NewYork(z) && b in bars && AtMidnight(z, b) && first <= NyDate(z, b.stamp) <= last
    ensures b in Fetch(z, bars, AsOf(last + 1), last + 1 - first + 7)
  {
    var asOf, lookback := AsOf(last + 1), last + 1 - first + 7;
    FetchCoversWindow(z, b, first, last);
    hide Stamped, ClosedAt, NyDate, Filter;
    FilterKeeps(bars, x => Stamped(x, asOf, lookback), b);
    FilterKeeps(Filter(bars, x => Stamped(x, asOf, lookback)), x => ClosedAt(z, x) <= asOf, b);
  }
}
