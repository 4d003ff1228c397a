/** What a trade writes into the rows themselves: which fields change, and to what. */
module LedgerRows {
  import opened Trading
  import opened Lots
  import opened Ledger

  /** The row was marked CLOSED with the order's terms; all else is as it was. */
  ghost predicate ClosedBy(lot: Row, after: Row, o: Order, store: real -> real) {
    && lot.status == OPEN && after.status == CLOSED
    && after.key == lot.key && after.decision == lot.decision
    && after.quantity == lot.quantity && after.entry == lot.entry && after.openedAt == lot.openedAt
    && after.exit == Some(store(o.price)) && after.closedAt == Some(o.asOf)
    && after.pnl == store(Pnl(o.price, lot.entry, lot.quantity))
  }

  /** The sold part of a lot: a CLOSED row of its own, of the selling decision, with the lot's entry and
      opening time and the order's terms; the lot keeps the rest and nothing else of it changes. */
  ghost predicate SplitOff(lot: Row, rest: Row, part: Row, o: Order, store: real -> real) {
    && lot.status == OPEN && rest == lot.(quantity := rest.quantity)
    && 0 < part.quantity && 0 < rest.quantity && part.quantity + rest.quantity == lot.quantity
    && part.status == CLOSED && part.key == lot.key && part.decision == o.decision
    && part.entry == store(lot.entry) && part.openedAt == lot.openedAt
    && part.exit == Some(store(o.price)) && part.closedAt == Some(o.asOf)
    && part.pnl == store(Pnl(o.price, lot.entry, part.quantity))
  }

  /** Listed rows were closed whole, or stayed, except that at most one was split. */
  ghost predicate SoldFrom(rows: seq<Row>, after: seq<Row>, ids: seq<nat>, o: Order, store: real -> real) {
    && |rows| <= |after| <= |rows| + 1
    && (forall i :: 0 <= i < |rows| && after[i] != rows[i] ==>
          i in ids && (ClosedBy(rows[i], after[i], o, store)
                       || (|after| > |rows| && SplitOff(rows[i], after[i], after[|rows|], o, store))))
    && (|after| > |rows| ==>
          exists j :: 0 <= j < |rows| && SplitOff(rows[j], after[j], after[|rows|], o, store))
  }

  ghost predicate Listed(rows: seq<Row>, ids: seq<nat>) {
    && (forall j :: 0 <= j < |ids| ==> ids[j] < |rows| && rows[ids[j]].status == OPEN && rows[ids[j]].quantity > 0)
    && (forall a, b :: 0 <= a < b < |ids| ==> ids[a] != ids[b])
  }

  lemma CloseWhole(rows: seq<Row>, ids: seq<nat>, after: seq<Row>, o: Order, store: real -> real)
    requires Listed(rows, ids) && ids != []
    requires
      var next := rows[ids[0] := CloseRow(rows[ids[0]], o.price, o.asOf, store)];
      SoldFrom(next, after, ids[1..], o, store)
    ensures SoldFrom(rows, after, ids, o, store)
  {
    var id := ids[0];
    var next := rows[id := CloseRow(rows[id], o.price, o.asOf, store)];
    assert id !in ids[1..];
    assert after[id] == next[id];
    assert ClosedBy(rows[id], next[id], o, store);
    hide CloseRow;
    forall i | 0 <= i < |rows| && after[i] != rows[i]
      ensures i in ids && (ClosedBy(rows[i], after[i], o, store)
                           || (|after| > |rows| && SplitOff(rows[i], after[i], after[|rows|], o, store)))
    {
      if i != id {
        assert next[i] == rows[i];
      }
    }
    if |after| > |rows| {
      var j :| 0 <= j < |rows| && SplitOff(next[j], after[j], after[|rows|], o, store);
      assert j != id;
    }
  }

  lemma SplitOne(rows: seq<Row>, ids: seq<nat>, n: int, o: Order, store: real -> real)
    requires Listed(rows, ids) && ids != [] && 0 < n < rows[ids[0]].quantity
    ensures SoldFrom(rows, CloseOne(rows, ids[0], n, o, store), ids, o, store)
  {
    var after := CloseOne(rows, ids[0], n, o, store);
    var id, lot := ids[0], rows[ids[0]];
    assert after[id] == lot.(quantity := lot.quantity - n) && after[|rows|] == SplitRow(lot, n, o, store);
    hide Pnl;
    assert SplitOff(lot, after[id], after[|rows|], o, store);
    hide SplitOff, SplitRow, CloseOne;
  }

  lemma NothingSold(rows: seq<Row>, ids: seq<nat>, o: Order, store: real -> real)
    ensures SoldFrom(rows, rows, ids, o, store)
  {
  }

  lemma StillListed(rows: seq<Row>, ids: seq<nat>, r: Row)
    requires Listed(rows, ids) && ids != []
    ensures Listed(rows[ids[0] := r], ids[1..])
  {
    var rest := ids[1..];
    forall j | 0 <= j < |rest| ensures rest[j] != ids[0] {
      assert rest[j] == ids[j + 1];
    }
  }

  lemma {:induction false} CloseLotsSells(rows: seq<Row>, ids: seq<nat>, remaining: int, o: Order, store: real -> real)
    requires Listed(rows, ids)
    ensures SoldFrom(rows, CloseLots(rows, ids, remaining, o, store), ids, o, store)
    decreases |ids|
  {
    hide SoldFrom, CloseRow, SplitRow, Pnl;
    if remaining <= 0 || ids == [] {
      NothingSold(rows, ids, o, store);
    } else {
      var id := ids[0];
      var closeQty := Min(remaining, rows[id].quantity);
      var next := CloseOne(rows, id, closeQty, o, store);
      if closeQty == rows[id].quantity {
        StillListed(rows, ids, CloseRow(rows[id], o.price, o.asOf, store));
        hide Listed;
        CloseLotsSells(next, ids[1..], remaining - closeQty, o, store);
        CloseWhole(rows, ids, CloseLots(next, ids[1..], remaining - closeQty, o, store), o, store);
      } else {
        hide CloseOne;
        SplitOne(rows, ids, closeQty, o, store);
      }
    }
  }

  /** A SELL closes open rows of its key with its own price, time and P&L, splits at most one of them,
      and rewrites nothing else. */
  lemma SaleWritesItsTerms(rows: seq<Row>, o: Order, store: real -> real)
    requires WellFormed(rows) && o.action == SELL && RecordTrade(rows, o, store).Some?
    ensures SoldFrom(rows, RecordTrade(rows, o, store).value, OpenIds(rows, o.key), o, store)
  {
    OpenIdsListAll(rows, o.key);
    hide CloseLots, BookOf;
    assert Listed(rows, OpenIds(rows, o.key));
    if o.quantity > 0 {
      hide Listed, OpenIds, SoldFrom;
      CloseLotsSells(rows, OpenIds(rows, o.key), o.quantity, o, store);
    }
  }

  /** A BUY appends one open row with its own terms and rewrites nothing. */
  lemma PurchaseWritesItsTerms(rows: seq<Row>, o: Order, store: real -> real)
    requires o.action == BUY && o.quantity > 0
    ensures
      var after := RecordTrade(rows, o, store);
      && after.Some? && |after.value| == |rows| + 1 && after.value[..|rows|] == rows
      && after.value[|rows|] == Row(o.key, o.decision, o.quantity, store(o.price), o.asOf, OPEN, None, None, 0.0)
  {
  }
}
