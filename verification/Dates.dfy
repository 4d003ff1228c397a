/** Calendar days as proleptic ordinals (day 1 is a Monday) and instants as UTC seconds. */
module Dates {

  predicate IsWeekday(day: int) {
    (day + 6) % 7 < 5
  }

  /** Weekdays in the half-open range (first, last]. */
  function WeekdaysBetween(first: int, last: int): nat
    decreases last - first
  {
    if last <= first then 0
    else WeekdaysBetween(first, last - 1) + if IsWeekday(last) then 1 else 0
  }

  lemma {:induction false} WeekdaysMonotone(first: int, a: int, b: int)
    requires a <= b
    ensures WeekdaysBetween(first, a) <= WeekdaysBetween(first, b)
    decreases b - a
  {
    if a < b {
      WeekdaysMonotone(first, a, b - 1);
    }
  }

  lemma {:induction false} WeekdaysShrink(a: int, b: int, last: int)
    requires a <= b
    ensures WeekdaysBetween(b, last) <= WeekdaysBetween(a, last)
    decreases last - a
  {
    if b < last {
      WeekdaysShrink(a, b, last - 1);
    }
  }

  predicate StrictlyIncreasing(days: seq<int>) {
    forall i, j :: 0 <= i < j < |days| ==> days[i] < days[j]
  }

  /** The default calendar: exactly the weekdays of the window, each once, in order. */
  method TradingDays(first: int, last: int) returns (days: seq<int>)
    ensures forall d :: d in days <==> first <= d <= last && IsWeekday(d)
    ensures StrictlyIncreasing(days)
  {
    days := [];
    var current := first;
    while current <= last
      invariant first <= last + 1 ==> first <= current <= last + 1
      invariant first > last ==> current == first
      invariant forall d :: d in days <==> first <= d < current && IsWeekday(d)
      invariant StrictlyIncreasing(days)
      decreases last - current
    {
      if IsWeekday(current) {
        assert forall i :: 0 <= i < |days| ==> days[i] in days;
        days := days + [current];
      }
      current := current + 1;
    }
  }

  const DAY_SECONDS := 86400

  /** A backtest decision for a day is made at 12:00 UTC on that day. */
  function AsOf(day: int): int {
    day * DAY_SECONDS + 12 * 3600
  }

  /** Day 1 is a Monday: of any seven days in a row the same five are weekdays. */
  lemma WeekdaysOfTheWeek(day: int)
    ensures forall d :: 1 <= d <= 5 ==> IsWeekday(d)
    ensures !IsWeekday(6) && !IsWeekday(7)
    ensures IsWeekday(day + 7) <==> IsWeekday(day)
  {
  }

  /** Weekdays of adjacent spans add up, a weekday counts once, and a week has five. */
  lemma {:induction false} WeekdaysAdd(first: int, middle: int, last: int)
    requires first <= middle <= last
    ensures WeekdaysBetween(first, last) == WeekdaysBetween(first, middle) + WeekdaysBetween(middle, last)
    ensures WeekdaysBetween(last, last) == 0
    ensures WeekdaysBetween(last - 1, last) == if IsWeekday(last) then 1 else 0
    decreases last - middle
  {
    assert WeekdaysBetween(last - 1, last - 1) == 0;
    if middle < last {
      WeekdaysAdd(first, middle, last - 1);
    }
  }
}
