/** The table ledgers: `backtest_outcomes`, scoped by backtest and symbol, and the live
    `outcomes`, whose rows all carry the same scope. Rows are inserted, shrunk and closed in
    place; the book of a key is what a reader of the table sees for it. */
module Ledger {
  import opened Trading
  import opened Lots

  datatype Key = Key(backtest: int, symbol: string)

  datatype Status = OPEN | CLOSED

  datatype Row = Row(
    key: Key,
    decision: int,
    quantity: int,
    entry: real,
    openedAt: int,
    status: Status,
    exit: Option<real>,
    closedAt: Option<int>,
    pnl: real)

  /** What a trade is recorded with. */
  datatype Order = Order(key: Key, decision: int, action: Action, quantity: int, price: real, asOf: int)

  // ---------------------------------------------------------------- the book of one key

  /** Open lots oldest first; realized P&L, number and shares of the CLOSED rows. */
  datatype Book = Book(lots: seq<Lot>, realized: real, closed: nat, closedShares: int)

  const EMPTY_BOOK := Book([], 0.0, 0, 0)

  /** The book after selling `n` shares that it holds. */
  function Sold(b: Book, n: int, price: real, store: real -> real): Book {
    var sale := SellFifo(b.lots, n, price, store);
    Book(sale.lots, b.realized + sale.realized, b.closed + sale.closed, b.closedShares + n)
  }

  /** The ledger's arithmetic on one book. `store` is what a price or P&L column keeps; None is
      the refusal to sell more than is held. */
  function BookTrade(b: Book, action: Action, quantity: int, price: real, store: real -> real): Option<Book> {
    if action == HOLD || quantity <= 0 then Some(b)
    else if action == BUY then Some(b.(lots := b.lots + [Lot(quantity, store(price))]))
    else if quantity > Held(b.lots) then None
    else Some(Sold(b, quantity, price, store))
  }

  predicate IsOpen(r: Row, k: Key) {
    r.key == k && r.status == OPEN
  }

  function AddRow(b: Book, r: Row, k: Key): Book {
    if r.key != k then b
    else if r.status == OPEN then b.(lots := b.lots + [Lot(r.quantity, r.entry)])
    else Book(b.lots, b.realized + r.pnl, b.closed + 1, b.closedShares + r.quantity)
  }

  function BookOf(rows: seq<Row>, k: Key): Book {
    if rows == [] then EMPTY_BOOK
    else AddRow(BookOf(rows[..|rows| - 1], k), rows[|rows| - 1], k)
  }

  function OpenIds(rows: seq<Row>, k: Key): (ids: seq<nat>)
    ensures forall j :: 0 <= j < |ids| ==> ids[j] < |rows| && IsOpen(rows[ids[j]], k)
  {
    if rows == [] then []
    else
      var n := |rows| - 1;
      OpenIds(rows[..n], k) + if IsOpen(rows[n], k) then [n] else []
  }

  // ---------------------------------------------------------------- well-formed tables

  /** Every row holds shares, and within a key the open rows were opened in row order. */
  ghost predicate WellFormed(rows: seq<Row>) {
    && (forall i :: 0 <= i < |rows| ==> rows[i].quantity > 0)
    && (forall i, j :: 0 <= i < j < |rows| && IsOpen(rows[i], rows[j].key) && rows[j].status == OPEN
          ==> rows[i].openedAt < rows[j].openedAt)
  }

  /** An answer of `SELECT ... WHERE status = 'OPEN' ORDER BY opened_at ASC`: each open row of the
      key once, in age order, ties broken in any way. */
  ghost predicate FifoListing(rows: seq<Row>, k: Key, ids: seq<nat>) {
    && (forall j :: 0 <= j < |ids| ==> ids[j] < |rows| && IsOpen(rows[ids[j]], k))
    && (forall i :: 0 <= i < |rows| && IsOpen(rows[i], k) ==> i in ids)
    && (forall a, b :: 0 <= a < b < |ids| ==> ids[a] != ids[b] && rows[ids[a]].openedAt <= rows[ids[b]].openedAt)
  }

  lemma {:induction false} OpenIdsListAll(rows: seq<Row>, k: Key)
    ensures forall i :: 0 <= i < |rows| && IsOpen(rows[i], k) ==> i in OpenIds(rows, k)
    ensures forall a, b :: 0 <= a < b < |OpenIds(rows, k)| ==> OpenIds(rows, k)[a] < OpenIds(rows, k)[b]
  {
    if rows != [] {
      var n := |rows| - 1;
      var prefix := OpenIds(rows[..n], k);
      OpenIdsListAll(rows[..n], k);
      forall i | 0 <= i < |rows| && IsOpen(rows[i], k) ensures i in OpenIds(rows, k) {
        if i < n {
          assert IsOpen(rows[..n][i], k);
          assert i in prefix;
        }
      }
    }
  }

  lemma {:induction false} SortedListingsAgree(xs: seq<nat>, ys: seq<nat>)
    requires forall a, b :: 0 <= a < b < |xs| ==> xs[a] < xs[b]
    requires forall a, b :: 0 <= a < b < |ys| ==> ys[a] < ys[b]
    requires forall x :: x in xs <==> x in ys
    ensures xs == ys
  {
    assert ys != [] ==> ys[0] in ys;
    if xs != [] {
      assert xs[0] in ys;
      var x, y := xs[0], ys[0];
      assert y in xs;
      assert x == y;
      forall z ensures z in xs[1..] <==> z in ys[1..] {
        if z in xs[1..] { assert z in ys && z != y; }
        if z in ys[1..] { assert z in xs && z != x; }
      }
      SortedListingsAgree(xs[1..], ys[1..]);
    }
  }

  /** In a well-formed table the ORDER BY has only one answer: insertion order. */
  lemma ListingIsInsertionOrder(rows: seq<Row>, k: Key, ids: seq<nat>)
    requires WellFormed(rows) && FifoListing(rows, k, ids)
    ensures ids == OpenIds(rows, k)
  {
    OpenIdsListAll(rows, k);
    forall a, b | 0 <= a < b < |ids| ensures ids[a] < ids[b] {
      assert IsOpen(rows[ids[a]], k) && IsOpen(rows[ids[b]], k);
    }
    SortedListingsAgree(ids, OpenIds(rows, k));
  }

  /** Every row of the key was opened before `asOf`. */
  ghost predicate Newer(rows: seq<Row>, k: Key, asOf: int) {
    forall i :: 0 <= i < |rows| && rows[i].key == k ==> rows[i].openedAt < asOf
  }

  // ---------------------------------------------------------------- recording a trade

  function CloseRow(r: Row, price: real, asOf: int, store: real -> real): Row {
    r.(status := CLOSED, exit := Some(store(price)), closedAt := Some(asOf),
       pnl := store(Pnl(price, r.entry, r.quantity)))
  }

  function SplitRow(r: Row, closeQty: int, o: Order, store: real -> real): Row {
    Row(r.key, o.decision, closeQty, store(r.entry), r.openedAt, CLOSED, Some(store(o.price)), Some(o.asOf),
        store(Pnl(o.price, r.entry, closeQty)))
  }

  /** One listed lot: marked CLOSED in place, or shrunk in place with its sold part inserted as a
      CLOSED row of its own. */
  function CloseOne(rows: seq<Row>, id: nat, closeQty: int, o: Order, store: real -> real): seq<Row>
    requires id < |rows|
  {
    var r := rows[id];
    if closeQty == r.quantity then rows[id := CloseRow(r, o.price, o.asOf, store)]
    else rows[id := r.(quantity := r.quantity - closeQty)] + [SplitRow(r, closeQty, o, store)]
  }

  /** The walk over the listed open lots. */
  function CloseLots(rows: seq<Row>, ids: seq<nat>, remaining: int, o: Order, store: real -> real): seq<Row>
    requires forall j :: 0 <= j < |ids| ==> ids[j] < |rows|
    decreases |ids|
  {
    if remaining <= 0 || ids == [] then rows
    else
      var closeQty := Min(remaining, rows[ids[0]].quantity);
      CloseLots(CloseOne(rows, ids[0], closeQty, o, store), ids[1..], remaining - closeQty, o, store)
  }

  function NewLot(o: Order, store: real -> real): Row {
    Row(o.key, o.decision, o.quantity, store(o.price), o.asOf, OPEN, None, None, 0.0)
  }

  function RecordTrade(rows: seq<Row>, o: Order, store: real -> real): Option<seq<Row>> {
    if o.action == HOLD || o.quantity <= 0 then Some(rows)
    else if o.action == BUY then Some(rows + [NewLot(o, store)])
    else if o.quantity > Held(BookOf(rows, o.key).lots) then None
    else Some(CloseLots(rows, OpenIds(rows, o.key), o.quantity, o, store))
  }

  // ---------------------------------------------------------------- table and book agree

  lemma {:induction false} LotsAreListedRows(rows: seq<Row>, k: Key)
    ensures
      var lots, ids := BookOf(rows, k).lots, OpenIds(rows, k);
      && |lots| == |ids|
      && forall j :: 0 <= j < |ids| ==> lots[j] == Lot(rows[ids[j]].quantity, rows[ids[j]].entry)
  {
    if rows != [] {
      LotsAreListedRows(rows[..|rows| - 1], k);
    }
  }

  /** Rewriting the oldest open row of a key: closing it drops the first lot, shrinking it
      shrinks the first lot. */
  lemma {:induction false} RewriteOldest(rows: seq<Row>, k: Key, r: Row)
    requires OpenIds(rows, k) != [] && r.key == k
    ensures
      var ids, b := OpenIds(rows, k), BookOf(rows, k);
      var rows' := rows[ids[0] := r];
      && b.lots != []
      && (r.status == CLOSED ==>
            && OpenIds(rows', k) == ids[1..]
            && BookOf(rows', k) == Book(b.lots[1..], b.realized + r.pnl, b.closed + 1, b.closedShares + r.quantity))
      && (r.status == OPEN ==>
            BookOf(rows', k) == b.(lots := [Lot(r.quantity, r.entry)] + b.lots[1..]))
  {
    var n := |rows| - 1;
    var id := OpenIds(rows, k)[0];
    var prefix := rows[..n];
    LotsAreListedRows(prefix, k);
    if id == n {
      assert OpenIds(prefix, k) == [];
      assert rows[id := r][..n] == prefix;
    } else {
      assert OpenIds(prefix, k) != [] && OpenIds(prefix, k)[0] == id;
      RewriteOldest(prefix, k, r);
      assert rows[id := r][..n] == prefix[id := r];
    }
  }

  lemma AppendRow(rows: seq<Row>, r: Row, k: Key)
    ensures BookOf(rows + [r], k) == AddRow(BookOf(rows, k), r, k)
    ensures OpenIds(rows + [r], k) == OpenIds(rows, k) + if IsOpen(r, k) then [|rows|] else []
  {
    assert (rows + [r])[..|rows|] == rows;
  }

  function ShrinkFirst(lots: seq<Lot>, closeQty: int): seq<Lot>
    requires lots != []
  {
    if closeQty == lots[0].quantity then lots[1..]
    else [Lot(lots[0].quantity - closeQty, lots[0].entry)] + lots[1..]
  }

  function Booked(b: Book, closeQty: int, price: real, store: real -> real): Book
    requires b.lots != []
  {
    Book(ShrinkFirst(b.lots, closeQty), b.realized + store(Pnl(price, b.lots[0].entry, closeQty)), b.closed + 1,
         b.closedShares + closeQty)
  }

  lemma CloseOldestWhole(rows: seq<Row>, k: Key, o: Order, store: real -> real)
    requires OpenIds(rows, k) != [] && BookOf(rows, k).lots != []
    requires BookOf(rows, k).lots[0] == Lot(rows[OpenIds(rows, k)[0]].quantity, rows[OpenIds(rows, k)[0]].entry)
    ensures
      var id, b := OpenIds(rows, k)[0], BookOf(rows, k);
      var rows' := CloseOne(rows, id, rows[id].quantity, o, store);
      && BookOf(rows', k) == Booked(b, rows[id].quantity, o.price, store)
      && OpenIds(rows', k) == OpenIds(rows, k)[1..]
  {
    hide BookOf, OpenIds, Pnl;
    RewriteOldest(rows, k, CloseRow(rows[OpenIds(rows, k)[0]], o.price, o.asOf, store));
  }

  lemma CloseOldestSplit(rows: seq<Row>, k: Key, closeQty: int, o: Order, store: real -> real)
    requires OpenIds(rows, k) != [] && BookOf(rows, k).lots != []
    requires BookOf(rows, k).lots[0] == Lot(rows[OpenIds(rows, k)[0]].quantity, rows[OpenIds(rows, k)[0]].entry)
    requires closeQty != rows[OpenIds(rows, k)[0]].quantity
    ensures BookOf(CloseOne(rows, OpenIds(rows, k)[0], closeQty, o, store), k)
        == Booked(BookOf(rows, k), closeQty, o.price, store)
  {
    hide BookOf, OpenIds, Pnl;
    var id := OpenIds(rows, k)[0];
    var shrunk := rows[id].(quantity := rows[id].quantity - closeQty);
    RewriteOldest(rows, k, shrunk);
    AppendRow(rows[id := shrunk], SplitRow(rows[id], closeQty, o, store), k);
  }

  lemma SoldStepwise(b: Book, n: int, price: real, store: real -> real)
    requires Positive(b.lots) && 0 < n <= Held(b.lots)
    ensures b.lots != []
    ensures
      var closeQty := Min(n, b.lots[0].quantity);
      var next := Booked(b, closeQty, price, store);
      && 0 <= n - closeQty <= Held(next.lots) && Positive(next.lots)
      && (closeQty < b.lots[0].quantity ==> n == closeQty)
      && Sold(b, n, price, store) == Sold(next, n - closeQty, price, store)
  {
    if n >= b.lots[0].quantity {
      SaleOfWholeLot(b.lots, n, price, store);
    } else {
      SaleSplitsLot(b.lots, n, price, store);
      HeldIsQueueLength(ShrinkFirst(b.lots, n));
    }
  }

  lemma {:induction false} CloseLotsIsSellFifo(rows: seq<Row>, n: int, o: Order, store: real -> real)
    requires 0 <= n <= Held(BookOf(rows, o.key).lots)
    requires Positive(BookOf(rows, o.key).lots)
    ensures BookOf(CloseLots(rows, OpenIds(rows, o.key), n, o, store), o.key)
        == Sold(BookOf(rows, o.key), n, o.price, store)
    decreases |OpenIds(rows, o.key)|
  {
    var b, ids := BookOf(rows, o.key), OpenIds(rows, o.key);
    LotsAreListedRows(rows, o.key);
    if n > 0 {
      var closeQty := Min(n, rows[ids[0]].quantity);
      SoldStepwise(b, n, o.price, store);
      if closeQty == rows[ids[0]].quantity {
        CloseOldestWhole(rows, o.key, o, store);
        CloseLotsIsSellFifo(CloseOne(rows, ids[0], closeQty, o, store), n - closeQty, o, store);
      } else {
        CloseOldestSplit(rows, o.key, closeQty, o, store);
      }
    }
  }

  /** Rows of other keys are untouched; rows of the key only ever get closed or shrunk. */
  ghost predicate Evolves(before: seq<Row>, after: seq<Row>, k: Key) {
    && |before| <= |after|
    && (forall i :: 0 <= i < |before| ==>
          && after[i].key == before[i].key && after[i].openedAt == before[i].openedAt
          && (after[i].status == OPEN ==> before[i].status == OPEN)
          && after[i].quantity > 0
          && (before[i].key != k ==> after[i] == before[i]))
    && (forall i :: |before| <= i < |after| ==> after[i].key == k && after[i].status == CLOSED && after[i].quantity > 0)
  }

  lemma EvolvesKeepsWellFormed(before: seq<Row>, after: seq<Row>, k: Key)
    requires WellFormed(before) && Evolves(before, after, k)
    ensures WellFormed(after)
  {
    forall i, j | 0 <= i < j < |after| && IsOpen(after[i], after[j].key) && after[j].status == OPEN
      ensures after[i].openedAt < after[j].openedAt
    {
      assert IsOpen(before[i], before[j].key);
    }
  }

  lemma {:induction false} EvolvesKeepsOtherBooks(before: seq<Row>, after: seq<Row>, k: Key, other: Key)
    requires Evolves(before, after, k) && other != k
    ensures BookOf(after, other) == BookOf(before, other)
    decreases |after|
  {
    if after != [] {
      var n := |after| - 1;
      if |before| == |after| {
        EvolvesKeepsOtherBooks(before[..n], after[..n], k, other);
      } else {
        EvolvesKeepsOtherBooks(before, after[..n], k, other);
      }
    }
  }

  lemma {:induction false} CloseLotsEvolves(rows: seq<Row>, ids: seq<nat>, remaining: int, o: Order,
                                            store: real -> real)
    requires forall i :: 0 <= i < |rows| ==> rows[i].quantity > 0
    requires forall j :: 0 <= j < |ids| ==> ids[j] < |rows| && rows[ids[j]].key == o.key
    ensures Evolves(rows, CloseLots(rows, ids, remaining, o, store), o.key)
    decreases |ids|
  {
    if remaining > 0 && ids != [] {
      var closeQty := Min(remaining, rows[ids[0]].quantity);
      var rows' := CloseOne(rows, ids[0], closeQty, o, store);
      assert Evolves(rows, rows', o.key);
      CloseLotsEvolves(rows', ids[1..], remaining - closeQty, o, store);
    }
  }

  lemma {:induction false} WellFormedBooksArePositive(rows: seq<Row>, k: Key)
    requires WellFormed(rows)
    ensures Positive(BookOf(rows, k).lots) && BookOf(rows, k).closedShares >= 0
  {
    if rows != [] {
      WellFormedBooksArePositive(rows[..|rows| - 1], k);
    }
  }

  lemma {:induction false} CloseLotsKeepsAges(rows: seq<Row>, ids: seq<nat>, remaining: int, o: Order,
                                              store: real -> real, k: Key, t: int)
    requires forall j :: 0 <= j < |ids| ==> ids[j] < |rows|
    requires Newer(rows, k, t)
    ensures Newer(CloseLots(rows, ids, remaining, o, store), k, t)
    decreases |ids|
  {
    if remaining > 0 && ids != [] {
      var closeQty := Min(remaining, rows[ids[0]].quantity);
      CloseLotsKeepsAges(CloseOne(rows, ids[0], closeQty, o, store), ids[1..], remaining - closeQty, o, store, k, t);
    }
  }

  lemma SellEvolves(rows: seq<Row>, o: Order, store: real -> real)
    requires WellFormed(rows)
    ensures Evolves(rows, CloseLots(rows, OpenIds(rows, o.key), o.quantity, o, store), o.key)
    ensures WellFormed(CloseLots(rows, OpenIds(rows, o.key), o.quantity, o, store))
  {
    CloseLotsEvolves(rows, OpenIds(rows, o.key), o.quantity, o, store);
    EvolvesKeepsWellFormed(rows, CloseLots(rows, OpenIds(rows, o.key), o.quantity, o, store), o.key);
  }

  /** The table ledger is the book arithmetic: same refusal, same resulting book. */
  lemma TableRefinesBook(rows: seq<Row>, o: Order, store: real -> real)
    requires WellFormed(rows)
    ensures
      var trade := BookTrade(BookOf(rows, o.key), o.action, o.quantity, o.price, store);
      match RecordTrade(rows, o, store)
      case None => trade.None?
      case Some(rows') => trade == Some(BookOf(rows', o.key))
  {
    hide BookOf, CloseLots, OpenIds, Sold, Held, WellFormed, NewLot;
    if o.action == BUY {
      BuyRefinesBook(rows, o, store);
    } else if o.action == SELL && o.quantity > 0 {
      SellRefinesBook(rows, o, store);
    }
  }

  lemma BuyRefinesBook(rows: seq<Row>, o: Order, store: real -> real)
    ensures
      var b := BookOf(rows, o.key);
      BookOf(rows + [NewLot(o, store)], o.key) == b.(lots := b.lots + [Lot(o.quantity, store(o.price))])
  {
    hide BookOf, OpenIds;
    AppendRow(rows, NewLot(o, store), o.key);
  }

  lemma SellRefinesBook(rows: seq<Row>, o: Order, store: real -> real)
    requires WellFormed(rows) && 0 < o.quantity
    ensures o.quantity <= Held(BookOf(rows, o.key).lots) ==>
              BookOf(CloseLots(rows, OpenIds(rows, o.key), o.quantity, o, store), o.key)
              == Sold(BookOf(rows, o.key), o.quantity, o.price, store)
  {
    hide BookOf, CloseLots, OpenIds, Sold, Held;
    WellFormedBooksArePositive(rows, o.key);
    if o.quantity <= Held(BookOf(rows, o.key).lots) {
      CloseLotsIsSellFifo(rows, o.quantity, o, store);
    }
  }

  /** Trades recorded in `as_of` order keep the table well formed, and leave every row of every
      other key as it was. */
  lemma TradeKeepsTableSound(rows: seq<Row>, o: Order, store: real -> real)
    requires WellFormed(rows) && Newer(rows, o.key, o.asOf)
    requires RecordTrade(rows, o, store).Some?
    ensures
      var rows' := RecordTrade(rows, o, store).value;
      && WellFormed(rows')
      && |rows| <= |rows'|
      && (forall i :: 0 <= i < |rows| && rows[i].key != o.key ==> rows'[i] == rows[i])
      && (forall i :: |rows| <= i < |rows'| ==> rows'[i].key == o.key)
  {
    if o.action == SELL {
      SellEvolves(rows, o, store);
    }
  }

  /** A trade opens nothing later than itself, and nothing under another key. */
  lemma TradeKeepsAges(rows: seq<Row>, o: Order, store: real -> real, k: Key, t: int)
    requires Newer(rows, k, t) && (k == o.key ==> o.asOf < t)
    requires RecordTrade(rows, o, store).Some?
    ensures Newer(RecordTrade(rows, o, store).value, k, t)
  {
    if o.action == SELL && o.quantity > 0 {
      CloseLotsKeepsAges(rows, OpenIds(rows, o.key), o.quantity, o, store, k, t);
    }
  }

  lemma TradeKeepsOtherBooks(rows: seq<Row>, o: Order, store: real -> real, other: Key)
    requires WellFormed(rows) && other != o.key
    requires RecordTrade(rows, o, store).Some?
    ensures BookOf(RecordTrade(rows, o, store).value, other) == BookOf(rows, other)
  {
    if o.action == BUY && o.quantity > 0 {
      AppendRow(rows, NewLot(o, store), other);
    } else if o.action == SELL && o.quantity > 0 {
      SellEvolves(rows, o, store);
      EvolvesKeepsOtherBooks(rows, CloseLots(rows, OpenIds(rows, o.key), o.quantity, o, store), o.key, other);
    }
  }
}
