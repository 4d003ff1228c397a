/** The ledger as the program keeps it: a table whose rows are inserted and updated in place. */
module LedgerTable {
  import opened Trading
  import opened Lots
  import opened Ledger

  function SumQuantities(rows: seq<Row>, ids: seq<nat>): int
    requires forall j :: 0 <= j < |ids| ==> ids[j] < |rows|
  {
    if ids == [] then 0 else SumQuantities(rows, ids[..|ids| - 1]) + rows[ids[|ids| - 1]].quantity
  }

  lemma {:induction false} HeldOfListing(rows: seq<Row>, ids: seq<nat>, lots: seq<Lot>)
    requires |ids| == |lots|
    requires forall j :: 0 <= j < |ids| ==> ids[j] < |rows| && lots[j].quantity == rows[ids[j]].quantity
    ensures SumQuantities(rows, ids) == Held(lots)
  {
    if lots != [] {
      var n := |lots| - 1;
      HeldOfListing(rows, ids[..n], lots[..n]);
      assert lots == lots[..n] + [lots[n]];
      HeldConcat(lots[..n], [lots[n]]);
    }
  }

  lemma CloseLotsStep(rows: seq<Row>, ids: seq<nat>, i: nat, remaining: int, o: Order, store: real -> real)
    requires i < |ids| && remaining > 0 && forall j :: i <= j < |ids| ==> ids[j] < |rows|
    ensures
      var closeQty := Min(remaining, rows[ids[i]].quantity);
      var next := CloseOne(rows, ids[i], closeQty, o, store);
      && |rows| <= |next|
      && CloseLots(rows, ids[i..], remaining, o, store) == CloseLots(next, ids[i + 1..], remaining - closeQty, o, store)
  {
    assert ids[i..][0] == ids[i] && ids[i..][1..] == ids[i + 1..];
    hide CloseRow, SplitRow;
  }

  class Table {
    var rows: seq<Row>
    const store: real -> real

    constructor (store: real -> real)
      ensures rows == [] && this.store == store && WellFormed(rows)
    {
      rows := [];
      this.store := store;
    }

    /** Total shares over the listed open lots. */
    method TotalOpen(k: Key, listing: seq<nat>) returns (total: int)
      requires WellFormed(rows) && FifoListing(rows, k, listing)
      ensures total == Held(BookOf(rows, k).lots)
    {
      hide BookOf, OpenIds;
      total := 0;
      var i := 0;
      while i < |listing|
        invariant 0 <= i <= |listing|
        invariant total == SumQuantities(rows, listing[..i])
      {
        assert listing[..i + 1][..i] == listing[..i];
        total := total + rows[listing[i]].quantity;
        i := i + 1;
      }
      assert listing[..i] == listing;
      ListingIsInsertionOrder(rows, k, listing);
      LotsAreListedRows(rows, k);
      HeldOfListing(rows, listing, BookOf(rows, k).lots);
    }

    /** Closes one lot, or splits off the part of it that is sold. */
    method CloseInPlace(id: nat, closeQty: int, o: Order)
      requires id < |rows|
      modifies this`rows
      ensures rows == CloseOne(old(rows), id, closeQty, o, store)
    {
      var lot := rows[id];
      if closeQty == lot.quantity {
        rows := rows[id := CloseRow(lot, o.price, o.asOf, store)];
      } else {
        rows := rows[id := lot.(quantity := lot.quantity - closeQty)];
        rows := rows + [SplitRow(lot, closeQty, o, store)];
      }
    }

    /** The loop of UPDATE and INSERT statements over the listed lots. */
    method CloseListed(o: Order, listing: seq<nat>)
      requires forall j :: 0 <= j < |listing| ==> listing[j] < |rows|
      modifies this`rows
      ensures rows == CloseLots(old(rows), listing, o.quantity, o, store)
    {
      var remaining, i := o.quantity, 0;
      while i < |listing| && remaining > 0
        invariant 0 <= i <= |listing|
        invariant forall j :: i <= j < |listing| ==> listing[j] < |rows|
        invariant CloseLots(rows, listing[i..], remaining, o, store)
            == CloseLots(old(rows), listing, o.quantity, o, store)
      {
        var id := listing[i];
        var lot := rows[id];
        var closeQty := Min(remaining, lot.quantity);
        CloseLotsStep(rows, listing, i, remaining, o, store);
        hide CloseLots, CloseOne, Min;
        CloseInPlace(id, closeQty, o);
        remaining := remaining - closeQty;
        i := i + 1;
      }
    }

    /** Records one trade. `listing` is the database's answer to the ORDER BY query a SELL makes,
        whatever plan produced it. The refusal to oversell changes nothing; every other call
        leaves exactly the table the specification gives, whose book is the book arithmetic's. */
    method Record(o: Order, listing: seq<nat>) returns (ok: bool)
      requires WellFormed(rows) && Newer(rows, o.key, o.asOf)
      requires FifoListing(rows, o.key, listing)
      modifies this`rows
      ensures ok <==> RecordTrade(old(rows), o, store).Some?
      ensures rows == if ok then RecordTrade(old(rows), o, store).value else old(rows)
      ensures WellFormed(rows)
      ensures BookTrade(BookOf(old(rows), o.key), o.action, o.quantity, o.price, store)
                == if ok then Some(BookOf(rows, o.key)) else None
    {
      TableRefinesBook(rows, o, store);
      if RecordTrade(rows, o, store).Some? {
        TradeKeepsTableSound(rows, o, store);
      }
      if o.action == HOLD || o.quantity <= 0 {
        return true;
      }
      if o.action == BUY {
        rows := rows + [NewLot(o, store)];
        return true;
      }
      var totalOpen := TotalOpen(o.key, listing);
      if o.quantity > totalOpen {
        return false;
      }
      ListingIsInsertionOrder(rows, o.key, listing);
      CloseListed(o, listing);
      return true;
    }
  }
}
