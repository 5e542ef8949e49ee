/** Where goods go: each posting, place by place. */
module Destinations {
  import opened Base
  import opened Tables
  import opened StockEngine
  import opened ReservationEngine
  import opened Invariants
  import opened Workflow
  import opened Grn
  import opened GrnLaws
  import opened Issue
  import opened Dispatching

  // ----- transfers -----

  /** What transfer lines take from a place, and what they bring to it. */
  function Taken(lines: seq<TransferLine>, company: Id, from: Id, key: Key): real {
    if lines == [] then 0.0
    else
      var line := lines[0];
      (if key == Key(Lot(company, line.material, line.batch), from, line.fromLocation, line.status)
       then line.quantity else 0.0) + Taken(lines[1..], company, from, key)
  }

  function Brought(lines: seq<TransferLine>, company: Id, to: Id, key: Key): real {
    if lines == [] then 0.0
    else
      var line := lines[0];
      (if key == Key(Lot(company, line.material, line.batch), to, line.toLocation, line.status)
       then line.quantity else 0.0) + Brought(lines[1..], company, to, key)
  }

  lemma {:induction false} LinesTransferredArrive(
      db: Db, company: Id, from: Id, to: Id, lines: seq<TransferLine>, key: Key)
    requires Agrees(db.stock) && LinesTransferred(db, company, from, to, lines).Ok?
    ensures var t := LinesTransferred(db, company, from, to, lines).value;
            && Agrees(t.stock) && t == db.(stock := t.stock)
            && At(t.stock, key)
                == At(db.stock, key) - Taken(lines, company, from, key) + Brought(lines, company, to, key)
    decreases |lines|
  {
    if lines == [] {
    } else {
      var line := lines[0];
      var t := LineTransferred(db, company, from, to, line).value;
      var source, target := TransferKey(company, from, line.fromLocation, line),
        TransferKey(company, to, line.toLocation, line);
      MovedAgrees(db.stock, source, target, line.quantity, TransferOut, TransferIn);
      TransferAt(db.stock, t.stock, source, target, line.quantity, key);
      LinesTransferredArrive(t, company, from, to, lines[1..], key);
    }
  }

  /** A transfer takes from every place in its first warehouse what its lines say and brings
      it to the places they name in the second; nothing else changes. */
  lemma TransferArrives(db: Db, company: Id, from: Id, to: Id, lines: seq<TransferLine>, key: Key)
    requires Agrees(db.stock) && TransferPosted(db, company, from, to, lines).Ok?
    ensures (company, from) in db.masters.warehouses && (company, to) in db.masters.warehouses
    ensures var t := TransferPosted(db, company, from, to, lines).value;
            && t == db.(stock := t.stock)
            && At(t.stock, key)
                == At(db.stock, key) - Taken(lines, company, from, key) + Brought(lines, company, to, key)
  {
    LinesTransferredArrive(db, company, from, to, lines, key);
  }

  /** Each line in turn finds its quantity in the place it names. */
  predicate EachFound(db: Db, company: Id, from: Id, to: Id, lines: seq<TransferLine>)
    decreases |lines|
  {
    lines != [] ==>
      var line, next := lines[0], LineTransferred(db, company, from, to, lines[0]);
      && 0.0 < line.quantity
         <= At(db.stock, Key(Lot(company, line.material, line.batch), from, line.fromLocation, line.status))
      && (next.Ok? ==> EachFound(next.value, company, from, to, lines[1..]))
  }

  /** A transfer is posted exactly between warehouses of the company and when each line, on the
      stock the earlier ones left, finds its quantity in the place it names. */
  lemma TransferPostedExactlyWhen(db: Db, company: Id, from: Id, to: Id, lines: seq<TransferLine>)
    requires Agrees(db.stock)
    ensures TransferPosted(db, company, from, to, lines).Ok? <==>
              && (company, from) in db.masters.warehouses && (company, to) in db.masters.warehouses
              && EachFound(db, company, from, to, lines)
  {
    LinesTransferredExactlyWhen(db, company, from, to, lines);
  }

  lemma {:induction false} LinesTransferredExactlyWhen(
      db: Db, company: Id, from: Id, to: Id, lines: seq<TransferLine>)
    requires Agrees(db.stock)
    ensures LinesTransferred(db, company, from, to, lines).Ok? <==> EachFound(db, company, from, to, lines)
    decreases |lines|
  {
    if lines == [] {
    } else {
      var line := lines[0];
      var source, target := TransferKey(company, from, line.fromLocation, line),
        TransferKey(company, to, line.toLocation, line);
      MovedExactlyWhen(db.stock, source, target, line.quantity, TransferOut, TransferIn);
      RowHoldsKey(db.stock.rows, source);
      if LineTransferred(db, company, from, to, line).Ok? {
        MovedAgrees(db.stock, source, target, line.quantity, TransferOut, TransferIn);
        LinesTransferredExactlyWhen(LineTransferred(db, company, from, to, line).value, company, from, to, lines[1..]);
      }
    }
  }

  // ----- returns -----

  /** What return lines bring to a place: good stock becomes available, damaged stock damaged,
      rejected stock rejected. */
  function GivenBack(lines: seq<ReturnLine>, company: Id, warehouse: Id, key: Key): real {
    if lines == [] then 0.0
    else
      var line := lines[0];
      var fits := key.lot == Lot(company, line.material, line.batch) && key.warehouse == warehouse
        && key.location == line.location
        && ((line.condition == Good && key.status == Available)
            || (line.condition == Spoilt && key.status == Damaged)
            || (line.condition == Refused && key.status == Rejected));
      (if fits then line.quantity else 0.0) + GivenBack(lines[1..], company, warehouse, key)
  }

  lemma {:induction false} LinesReturnedArrive(
      db: Db, company: Id, warehouse: Id, lines: seq<ReturnLine>, key: Key)
    requires Agrees(db.stock) && LinesReturned(db, company, warehouse, lines).Ok?
    ensures var t := LinesReturned(db, company, warehouse, lines).value;
            && Agrees(t.stock) && t == db.(stock := t.stock, returnItems := t.returnItems)
            && At(t.stock, key) == At(db.stock, key) + GivenBack(lines, company, warehouse, key)
    decreases |lines|
  {
    if lines == [] {
    } else {
      var t := LineReturned(db, company, warehouse, lines[0]).value;
      var posted := ReturnKey(company, warehouse, lines[0]);
      AddedAgrees(db.stock, posted, lines[0].quantity, Returned);
      ShiftAt(db.stock, t.stock, posted, lines[0].quantity, key);
      LinesReturnedArrive(t, company, warehouse, lines[1..], key);
    }
  }

  /** A return brings its lines' goods to their places in the warehouse, each under the status
      of its condition; nothing else changes. */
  lemma ReturnArrives(db: Db, company: Id, warehouse: Id, lines: seq<ReturnLine>, key: Key)
    requires Agrees(db.stock) && ReturnPosted(db, company, warehouse, lines).Ok?
    ensures (company, warehouse) in db.masters.warehouses
    ensures var t := ReturnPosted(db, company, warehouse, lines).value;
            && t == db.(stock := t.stock, returnItems := t.returnItems)
            && At(t.stock, key) == At(db.stock, key) + GivenBack(lines, company, warehouse, key)
  {
    LinesReturnedArrive(db, company, warehouse, lines, key);
  }

  /** A return is accepted exactly for a warehouse of the company and positive quantities of
      known batches. */
  lemma ReturnPostedExactlyWhen(db: Db, company: Id, warehouse: Id, lines: seq<ReturnLine>)
    requires Agrees(db.stock)
    ensures ReturnPosted(db, company, warehouse, lines).Ok? <==>
              && (company, warehouse) in db.masters.warehouses
              && forall i | 0 <= i < |lines| :: lines[i].quantity > 0.0 && lines[i].batch < |db.stock.batches|
  {
    LinesReturnedExactlyWhen(db, company, warehouse, lines);
  }

  lemma {:induction false} LinesReturnedExactlyWhen(db: Db, company: Id, warehouse: Id, lines: seq<ReturnLine>)
    requires Agrees(db.stock)
    ensures LinesReturned(db, company, warehouse, lines).Ok?
            <==> forall i | 0 <= i < |lines| :: lines[i].quantity > 0.0 && lines[i].batch < |db.stock.batches|
    decreases |lines|
  {
    if lines == [] {
    } else {
      var line, rest := lines[0], lines[1..];
      var posted := ReturnKey(company, warehouse, line);
      AddedExactlyWhen(db.stock, posted, line.quantity, Returned);
      assert forall i | 0 < i < |lines| :: lines[i] == rest[i - 1];
      assert forall i | 0 <= i < |rest| :: rest[i] == lines[i + 1];
      if Added(db.stock, posted, line.quantity, Returned).Ok? {
        AddedAgrees(db.stock, posted, line.quantity, Returned);
        LinesReturnedExactlyWhen(LineReturned(db, company, warehouse, line).value, company, warehouse, rest);
      }
    }
  }

  // ----- dispatch -----

  /** Stock of a lot in a warehouse and status, at all its locations. */
  function InWarehouse(s: Stock, lot: Lot, warehouse: Id, status: Status): real {
    OnHand(s.rows, Where(Some(lot.company), Some(lot.material), Some(lot.batch), Some(warehouse), None, Some(status)))
  }

  lemma {:induction false} LinesShippedLeave(
      s: Stock, company: Id, from: Id, lines: seq<DispatchLine>, lot: Lot, warehouse: Id, status: Status)
    requires Agrees(s) && LinesShipped(s, company, from, lines).Ok?
    ensures var t := LinesShipped(s, company, from, lines).value;
            && Agrees(t)
            && InWarehouse(t, lot, warehouse, status)
                == InWarehouse(s, lot, warehouse, status)
                   - (if lot.company == company && warehouse == from && status == Available
                      then DispatchLinesOf(lines, lot) else 0.0)
    decreases |lines|
  {
    if lines == [] {
    } else {
      var line := lines[0];
      var t := LineShipped(s, company, from, line).value;
      var key := s.rows[Find(s.rows, Dispatching.StockFor(company, from, line), Some(line.quantity))].key;
      DeductedAgrees(s, key, line.quantity, Dispatched);
      var w := Where(Some(lot.company), Some(lot.material), Some(lot.batch), Some(warehouse), None, Some(status));
      assert OnHand(t.rows, w) == OnHand(s.rows, w) + (if w.Hits(key) then -line.quantity else 0.0);
      LinesShippedLeave(t, company, from, lines[1..], lot, warehouse, status);
    }
  }

  /** A line ships exactly when it names a batch and a positive quantity that one available row
      of the batch in the warehouse holds. */
  lemma LineShippedExactlyWhen(s: Stock, company: Id, from: Id, line: DispatchLine)
    requires Agrees(s)
    ensures LineShipped(s, company, from, line).Ok? <==>
              && line.quantity > 0.0 && line.batch.Some?
              && InOneRow(s, Lot(company, line.material, line.batch.value), Available, Some(from), None, line.quantity)
  {
    if line.batch.Some? {
      var i := Find(s.rows, Dispatching.StockFor(company, from, line), Some(line.quantity));
      if i < |s.rows| {
        RowAt(s, i);
        DeductedExactlyWhen(s, s.rows[i].key, line.quantity, Dispatched);
      }
    }
  }

  /** Shipping takes what the order's lines say from available stock of the order's warehouse
      and from nowhere else, and marks the order shipped; it was a draft before. */
  lemma ShipmentLeaves(db: Db, company: Id, id: nat, lot: Lot, warehouse: Id, status: Status)
    requires Agrees(db.stock) && ShippedOut(db, company, id).Ok?
    ensures id < |db.dispatches| && db.dispatches[id].company == company && db.dispatches[id].status == Draft
    ensures var order := db.dispatches[id];
            var t := ShippedOut(db, company, id).value;
            && t == db.(stock := t.stock, dispatches := db.dispatches[id := order.(status := Shipped)])
            && InWarehouse(t.stock, lot, warehouse, status)
                == InWarehouse(db.stock, lot, warehouse, status)
                   - (if lot.company == company && warehouse == order.warehouse && status == Available
                      then DispatchLinesOf(order.lines, lot) else 0.0)
  {
    LinesShippedLeave(db.stock, company, db.dispatches[id].warehouse, db.dispatches[id].lines, lot, warehouse, status);
  }

  /** Each line in turn names a batch and finds its quantity in one row. */
  predicate EachShips(s: Stock, company: Id, from: Id, lines: seq<DispatchLine>)
    decreases |lines|
  {
    lines != [] ==>
      var line, next := lines[0], LineShipped(s, company, from, lines[0]);
      && line.quantity > 0.0 && line.batch.Some?
      && InOneRow(s, Lot(company, line.material, line.batch.value), Available, Some(from), None, line.quantity)
      && (next.Ok? ==> EachShips(next.value, company, from, lines[1..]))
  }

  lemma {:induction false} LinesShippedExactlyWhen(s: Stock, company: Id, from: Id, lines: seq<DispatchLine>)
    requires Agrees(s)
    ensures LinesShipped(s, company, from, lines).Ok? <==> EachShips(s, company, from, lines)
    decreases |lines|
  {
    if lines == [] {
    } else {
      var line := lines[0];
      LineShippedExactlyWhen(s, company, from, line);
      if LineShipped(s, company, from, line).Ok? {
        DeductedAgrees(s, s.rows[Find(s.rows, Dispatching.StockFor(company, from, line), Some(line.quantity))].key,
            line.quantity, Dispatched);
        LinesShippedExactlyWhen(LineShipped(s, company, from, line).value, company, from, lines[1..]);
      }
    }
  }

  /** An order ships exactly when it is a draft of the company with lines, and each of them, on
      the stock the earlier ones left, names a batch and finds its quantity in one available
      row of it in the order's warehouse. */
  lemma ShippedOutExactlyWhen(db: Db, company: Id, id: nat)
    requires Agrees(db.stock)
    ensures ShippedOut(db, company, id).Ok? <==>
              && id < |db.dispatches| && db.dispatches[id].company == company && db.dispatches[id].status == Draft
              && db.dispatches[id].lines != []
              && EachShips(db.stock, company, db.dispatches[id].warehouse, db.dispatches[id].lines)
  {
    if id < |db.dispatches| {
      LinesShippedExactlyWhen(db.stock, company, db.dispatches[id].warehouse, db.dispatches[id].lines);
    }
  }

  // ----- inspection -----

  function Positive(quantity: real): real {
    if quantity > 0.0 then quantity else 0.0
  }

  /** What an inspection accepts and rejects of an item, over all its lines. */
  function AcceptedOf(lines: seq<QcLine>, item: nat): real {
    if lines == [] then 0.0
    else (if lines[0].item == item then Positive(lines[0].accepted) else 0.0) + AcceptedOf(lines[1..], item)
  }

  function RejectedOf(lines: seq<QcLine>, item: nat): real {
    if lines == [] then 0.0
    else (if lines[0].item == item then Positive(lines[0].rejected) else 0.0) + RejectedOf(lines[1..], item)
  }

  /** The key is the place where the item was put away. */
  predicate PlaceOf(key: Key, company: Id, item: GrnItem) {
    && key.lot == Lot(company, item.lot.material, item.lot.batch)
    && key.warehouse == item.warehouse && key.location == item.location
  }

  /** What one line changes under a key. */
  function Verdicted(items: seq<GrnItem>, company: Id, line: QcLine, key: Key): real {
    if line.item >= |items| || !PlaceOf(key, company, items[line.item]) then 0.0
    else
      match key.status
      case Available => Positive(line.accepted)
      case Rejected => Positive(line.rejected)
      case QualityHold => -Positive(line.accepted) - Positive(line.rejected)
      case _ => 0.0
  }

  function AllVerdicted(items: seq<GrnItem>, company: Id, lines: seq<QcLine>, key: Key): real {
    if lines == [] then 0.0
    else Verdicted(items, company, lines[0], key) + AllVerdicted(items, company, lines[1..], key)
  }

  lemma MovedIfAt(s: Stock, from: Key, to: Key, quantity: real, outKind: Kind, inKind: Kind, key: Key)
    requires Agrees(s) && MovedIfPositive(s, from, to, quantity, outKind, inKind).Ok?
    ensures var t := MovedIfPositive(s, from, to, quantity, outKind, inKind).value;
            && Agrees(t)
            && At(t, key) == At(s, key) - (if key == from then Positive(quantity) else 0.0)
                             + (if key == to then Positive(quantity) else 0.0)
  {
    if quantity > 0.0 {
      MovedAgrees(s, from, to, quantity, outKind, inKind);
      TransferAt(s, MovedIfPositive(s, from, to, quantity, outKind, inKind).value, from, to, quantity, key);
    }
  }

  lemma QcStockAt(s: Stock, company: Id, items: seq<GrnItem>, line: QcLine, key: Key)
    requires Agrees(s) && line.item < |items| && QcStock(s, OnHold(company, items[line.item]), line).Ok?
    ensures var t := QcStock(s, OnHold(company, items[line.item]), line).value;
            Agrees(t) && At(t, key) == At(s, key) + Verdicted(items, company, line, key)
  {
    var hold := OnHold(company, items[line.item]);
    var u := MovedIfPositive(s, hold, hold.(status := Available), line.accepted, QcRelease, QcAccept).value;
    MovedIfAt(s, hold, hold.(status := Available), line.accepted, QcRelease, QcAccept, key);
    MovedIfAt(u, hold, hold.(status := Rejected), line.rejected, QcRelease, QcReject, key);
  }

  lemma {:induction false} QcLinesAt(
      db: Db, read: seq<GrnItem>, company: Id, receipt: nat, lines: seq<QcLine>, key: Key)
    requires Agrees(db.stock) && |read| == |db.grnItems| && QcLinesApplied(db, read, company, receipt, lines).Ok?
    ensures var t := QcLinesApplied(db, read, company, receipt, lines).value;
            Agrees(t.stock) && At(t.stock, key) == At(db.stock, key) + AllVerdicted(read, company, lines, key)
    decreases |lines|
  {
    if lines == [] {
    } else {
      QcStockAt(db.stock, company, read, lines[0], key);
      QcLinesAt(QcLineApplied(db, read, company, receipt, lines[0]).value, read, company, receipt, lines[1..], key);
    }
  }

  /** An inspection's whole effect on stock: under every key, what its lines decide there. */
  lemma InspectionArrives(db: Db, company: Id, receipt: nat, lines: seq<QcLine>, policy: Policy, key: Key)
    requires Agrees(db.stock) && QcApplied(db, company, receipt, lines, policy).Ok?
    ensures At(QcApplied(db, company, receipt, lines, policy).value.stock, key)
         == At(db.stock, key) + AllVerdicted(db.grnItems, company, lines, key)
  {
    QcLinesAt(db, db.grnItems, company, receipt, lines, key);
  }

  lemma {:induction false} VerdictsOfItem(
      items: seq<GrnItem>, batches: nat, company: Id, lines: seq<QcLine>, j: nat, key: Key)
    requires ReceivedApart(items, batches) && j < |items| && PlaceOf(key, company, items[j])
    ensures AllVerdicted(items, company, lines, key)
         == if key.status == Available then AcceptedOf(lines, j)
            else if key.status == Rejected then RejectedOf(lines, j)
            else if key.status == QualityHold then -AcceptedOf(lines, j) - RejectedOf(lines, j)
            else 0.0
  {
    if lines == [] {
    } else {
      var k := lines[0].item;
      VerdictsOfItem(items, batches, company, lines[1..], j, key);
      assert k < |items| && k != j ==>
        items[if k < j then k else j].lot.batch != items[if k < j then j else k].lot.batch;
    }
  }

  /** What an inspection accepts of an item becomes available where the item was put away,
      what it rejects becomes rejected there, and both leave hold; no other status changes. */
  lemma InspectedGoodsGo(db: Db, company: Id, receipt: nat, lines: seq<QcLine>, policy: Policy, j: nat, key: Key)
    requires Core(db) && QcApplied(db, company, receipt, lines, policy).Ok?
    requires j < |db.grnItems| && PlaceOf(key, company, db.grnItems[j])
    ensures var t := QcApplied(db, company, receipt, lines, policy).value.stock;
            At(t, key) == At(db.stock, key)
                          + (if key.status == Available then AcceptedOf(lines, j)
                             else if key.status == Rejected then RejectedOf(lines, j)
                             else if key.status == QualityHold then -AcceptedOf(lines, j) - RejectedOf(lines, j)
                             else 0.0)
  {
    InspectionArrives(db, company, receipt, lines, policy, key);
    VerdictsOfItem(db.grnItems, |db.stock.batches|, company, lines, j, key);
  }
}
