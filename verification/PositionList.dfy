/** Positions derived from the open rows of one backtest: what the risk node asks for. */
module PositionList {
  import opened Trading
  import opened Lots
  import opened Ledger
  import RiskGate
  import Replay

  datatype Position = Position(quantity: int, avgEntry: real, openedAt: int)

  /** Upper case, for ASCII letters. */
  function Upper(s: string): string {
    if s == "" then "" else [if 'a' <= s[0] <= 'z' then s[0] - 'a' + 'A' else s[0]] + Upper(s[1..])
  }

  /** An absent or empty symbol asks for all of them. */
  predicate Wanted(asked: Option<string>, symbol: string) {
    asked == None || asked.value == "" || Upper(asked.value) == symbol
  }

  /** Rounded to four decimals, halves to even. */
  function Round4(x: real): real {
    RiskGate.RoundHalfEven(x * 10000.0) as real / 10000.0
  }

  /** The open rows of a key, in row order. */
  function OpenRows(rows: seq<Row>, k: Key): seq<Row> {
    if rows == [] then []
    else OpenRows(rows[..|rows| - 1], k) + if IsOpen(rows[|rows| - 1], k) then [rows[|rows| - 1]] else []
  }

  function LotsOf(rows: seq<Row>): (lots: seq<Lot>)
    ensures |lots| == |rows| && forall i :: 0 <= i < |lots| ==> lots[i] == Lot(rows[i].quantity, rows[i].entry)
  {
    seq(|rows|, i requires 0 <= i < |rows| => Lot(rows[i].quantity, rows[i].entry))
  }

  lemma {:induction false} OpenRowsAreTheBook(rows: seq<Row>, k: Key)
    ensures LotsOf(OpenRows(rows, k)) == BookOf(rows, k).lots
    ensures forall r :: r in OpenRows(rows, k) <==> r in rows && IsOpen(r, k)
  {
    if rows != [] {
      var n := |rows| - 1;
      OpenRowsAreTheBook(rows[..n], k);
      assert rows == rows[..n] + [rows[n]];
    }
  }

  lemma OpenRowsAppend(rows: seq<Row>, r: Row, k: Key)
    ensures OpenRows(rows + [r], k) == OpenRows(rows, k) + if IsOpen(r, k) then [r] else []
  {
    assert (rows + [r])[..|rows|] == rows;
  }

  /** The open rows, grouped by symbol. */
  method GroupOpen(rows: seq<Row>, backtest: int, asked: Option<string>) returns (bySymbol: map<string, seq<Row>>)
    ensures forall s :: s in bySymbol <==> Wanted(asked, s) && OpenRows(rows, Key(backtest, s)) != []
    ensures forall s :: s in bySymbol ==> bySymbol[s] == OpenRows(rows, Key(backtest, s))
  {
    hide Wanted, OpenRows;
    bySymbol := map[];
    assert forall s :: OpenRows([], Key(backtest, s)) == [] by { NoRows(backtest); }
    for i := 0 to |rows|
      invariant forall s :: s in bySymbol <==> Wanted(asked, s) && OpenRows(rows[..i], Key(backtest, s)) != []
      invariant forall s :: s in bySymbol ==> bySymbol[s] == OpenRows(rows[..i], Key(backtest, s))
    {
      var r, s := rows[i], rows[i].key.symbol;
      ghost var next := rows[..i + 1];
      forall x ensures OpenRows(next, Key(backtest, x))
                       == OpenRows(rows[..i], Key(backtest, x)) + if IsOpen(r, Key(backtest, x)) then [r] else []
      {
        assert next == rows[..i] + [r];
        OpenRowsAppend(rows[..i], r, Key(backtest, x));
      }
      if r.key.backtest == backtest && r.status == OPEN && Wanted(asked, s) {
        bySymbol := bySymbol[s := (if s in bySymbol then bySymbol[s] else []) + [r]];
      }
    }
    assert rows[..|rows|] == rows;
  }

  lemma NoRows(backtest: int)
    ensures forall s :: OpenRows([], Key(backtest, s)) == []
  {
  }

  function Product(price: real, quantity: int): real {
    price * quantity as real
  }

  function Weighted(lots: seq<Row>): real {
    if lots == [] then 0.0
    else
      var last := lots[|lots| - 1];
      Weighted(lots[..|lots| - 1]) + Product(last.entry, last.quantity)
  }

  function Total(lots: seq<Row>): int {
    if lots == [] then 0 else Total(lots[..|lots| - 1]) + lots[|lots| - 1].quantity
  }

  lemma {:induction false} CostConcat(a: seq<Lot>, b: seq<Lot>)
    ensures Replay.Cost(a + b) == Replay.Cost(a) + Replay.Cost(b)
  {
    if a == [] {
      assert a + b == b;
    } else {
      assert (a + b)[1..] == a[1..] + b;
      CostConcat(a[1..], b);
    }
  }

  /** The running sums are the shares and the cost of the lots. */
  lemma {:induction false} SumsOfLots(lots: seq<Row>)
    ensures Total(lots) == Held(LotsOf(lots)) && Weighted(lots) == Replay.Cost(LotsOf(lots))
  {
    if lots != [] {
      var n := |lots| - 1;
      SumsOfLots(lots[..n]);
      var last := Lot(lots[n].quantity, lots[n].entry);
      assert LotsOf(lots) == LotsOf(lots[..n]) + [last];
      hide LotsOf;
      HeldConcat(LotsOf(lots[..n]), [last]);
      CostConcat(LotsOf(lots[..n]), [last]);
      assert [last][1..] == [];
      assert Held([last]) == last.quantity && Replay.Cost([last]) == Product(last.entry, last.quantity);
      hide Product, Held, Replay.Cost;
    }
  }

  /** The oldest opening time of some rows. */
  ghost predicate IsEarliest(t: int, lots: seq<Row>) {
    (exists r :: r in lots && r.openedAt == t) && forall r :: r in lots ==> t <= r.openedAt
  }

  /** One symbol's position, or none if its rows hold no shares. */
  method Summarize(lots: seq<Row>) returns (position: Option<Position>)
    requires lots != []
    ensures position.Some? <==> Held(LotsOf(lots)) > 0
    ensures position.Some? ==>
              && position.value.quantity == Held(LotsOf(lots))
              && position.value.avgEntry == Round4(Replay.AvgEntry(LotsOf(lots)))
              && IsEarliest(position.value.openedAt, lots)
  {
    hide Product, Round4;
    var total, weighted, earliest := 0, 0.0, lots[0].openedAt;
    for i := 0 to |lots|
      invariant total == Total(lots[..i]) && weighted == Weighted(lots[..i])
      invariant forall j :: 0 <= j < i ==> earliest <= lots[j].openedAt
      invariant exists j :: 0 <= j < |lots| && lots[j].openedAt == earliest
    {
      assert lots[..i + 1][..i] == lots[..i];
      total := total + lots[i].quantity;
      weighted := weighted + Product(lots[i].entry, lots[i].quantity);
      if lots[i].openedAt < earliest {
        earliest := lots[i].openedAt;
      }
    }
    assert lots[..|lots|] == lots;
    SumsOfLots(lots);
    if total <= 0 {
      return None;
    }
    return Some(Position(total, Round4(weighted / total as real), earliest));
  }

  /** What a position says of a key: its shares, their average entry, and its oldest opening. */
  ghost predicate Describes(p: Position, rows: seq<Row>, k: Key) {
    && p.quantity == Held(BookOf(rows, k).lots)
    && p.avgEntry == Round4(Replay.AvgEntry(BookOf(rows, k).lots))
    && (exists r :: r in rows && IsOpen(r, k) && r.openedAt == p.openedAt)
    && (forall r :: r in rows && IsOpen(r, k) ==> p.openedAt <= r.openedAt)
  }

  /** Open positions of one backtest, by symbol, of all symbols or of one: a symbol is listed exactly
      when its book holds shares. */
  method ListPositions(rows: seq<Row>, backtest: int, asked: Option<string>) returns (positions: map<string, Position>)
    ensures forall s :: s in positions <==> Wanted(asked, s) && Held(BookOf(rows, Key(backtest, s)).lots) > 0
    ensures forall s :: s in positions ==> Describes(positions[s], rows, Key(backtest, s))
  {
    hide Wanted, Round4, Replay.AvgEntry, Replay.Cost, OpenRows, BookOf;
    var bySymbol := GroupOpen(rows, backtest, asked);
    positions := map[];
    var todo := bySymbol.Keys;
    while todo != {}
      invariant todo <= bySymbol.Keys
      invariant forall s :: s in positions <==>
                  s in bySymbol && s !in todo && Held(BookOf(rows, Key(backtest, s)).lots) > 0
      invariant forall s :: s in positions ==> Describes(positions[s], rows, Key(backtest, s))
      decreases todo
    {
      var s :| s in todo;
      todo := todo - {s};
      OpenRowsAreTheBook(rows, Key(backtest, s));
      var position := Summarize(bySymbol[s]);
      if position.Some? {
        assert Describes(position.value, rows, Key(backtest, s));
        positions := positions[s := position.value];
      }
    }
    forall s | Wanted(asked, s) && s !in bySymbol ensures Held(BookOf(rows, Key(backtest, s)).lots) <= 0 {
      OpenRowsAreTheBook(rows, Key(backtest, s));
    }
  }

  /** The rounded average is within half of the fourth decimal. */
  lemma Round4IsNear(x: real)
    ensures -0.00005 <= Round4(x) - x <= 0.00005
  {
    var y := x * 10000.0;
    var low := y.Floor;
    assert low as real <= y < low as real + 1.0;
    var k := RiskGate.RoundHalfEven(y) as real;
    assert -0.5 <= k - y <= 0.5;
    assert Round4(x) * 10000.0 == k;
  }

  lemma {:induction false} UpperMapsEveryLetter(s: string)
    ensures |Upper(s)| == |s|
    ensures forall i :: 0 <= i < |s| ==> Upper(s)[i] == if 'a' <= s[i] <= 'z' then s[i] - 'a' + 'A' else s[i]
  {
    if s != "" {
      UpperMapsEveryLetter(s[1..]);
    }
  }
}
