/** What every run of the store keeps, stated once for all services. */
module Invariants {
  import opened Base
  import opened Tables
  import opened StockEngine
  import opened ReservationEngine

  // ----- documents -----

  /** What a GRN line put into stock: the good part, if any, and the damaged part. */
  function Booked(item: GrnItem): real {
    (if item.received - item.damage > 0.0 then item.received - item.damage else 0.0)
        + (if item.damage > 0.0 then item.damage else 0.0)
  }

  function BookedOf(items: seq<GrnItem>, lot: Lot): real {
    if items == [] then 0.0
    else
      var last := items[|items| - 1];
      BookedOf(items[..|items| - 1], lot) + (if last.lot == lot then Booked(last) else 0.0)
  }

  function LinesOf(items: seq<DocItem>, lot: Lot): real {
    if items == [] then 0.0
    else
      var last := items[|items| - 1];
      LinesOf(items[..|items| - 1], lot) + (if last.lot == lot then last.quantity else 0.0)
  }

  function IssuedOf(items: seq<IssueItem>, lot: Lot): real {
    if items == [] then 0.0
    else
      var last := items[|items| - 1];
      IssuedOf(items[..|items| - 1], lot) + (if last.lot == lot then last.quantity else 0.0)
  }

  function DispatchLinesOf(lines: seq<DispatchLine>, lot: Lot): real {
    if lines == [] then 0.0
    else
      (if lines[0].material == lot.material && lines[0].batch == Some(lot.batch) then lines[0].quantity else 0.0)
      + DispatchLinesOf(lines[1..], lot)
  }

  function ShippedOf(orders: seq<Dispatch>, lot: Lot): real {
    if orders == [] then 0.0
    else
      var last := orders[|orders| - 1];
      ShippedOf(orders[..|orders| - 1], lot)
      + (if last.status.Shipped? && last.company == lot.company then DispatchLinesOf(last.lines, lot) else 0.0)
  }

  /** What the documents say a lot's stock must be. */
  function Documented(db: Db, lot: Lot): real {
    BookedOf(db.grnItems, lot) + LinesOf(db.fgItems, lot) + LinesOf(db.returnItems, lot)
    - IssuedOf(db.issueItems, lot) - ShippedOf(db.dispatches, lot)
  }

  // ----- the invariants -----

  /** Stock of every lot, whatever its place or status, is what documents say. */
  ghost predicate Reconciled(db: Db) {
    forall lot: Lot :: OnHand(db.stock.rows, OfLot(lot)) == Documented(db, lot)
  }

  /** Every GRN line received something, into a batch of its own. */
  ghost predicate ReceivedApart(items: seq<GrnItem>, batches: nat) {
    && (forall i | 0 <= i < |items| :: items[i].lot.batch < batches && items[i].received > 0.0)
    && (forall i, j | 0 <= i < j < |items| :: items[i].lot.batch != items[j].lot.batch)
  }

  /** What a GRN line put into quality hold. */
  function PutOnHold(item: GrnItem): real {
    (if item.qcRequired && item.received - item.damage > 0.0 then item.received - item.damage else 0.0)
  }

  /** A line's hold stock, wherever it lies, is what inspection has not decided. */
  ghost predicate HoldBalanced(db: Db, i: nat)
    requires i < |db.grnItems|
  {
    var item := db.grnItems[i];
    OnHand(db.stock.rows, HoldOf(item.lot.batch)) == PutOnHold(item) - item.accepted - item.rejected
  }

  ghost predicate AllHoldBalanced(db: Db) {
    forall i: nat | i < |db.grnItems| :: HoldBalanced(db, i)
  }

  /** Kept by every operation on every input. */
  ghost predicate Core(db: Db) {
    && Agrees(db.stock)
    && OnBatches(db.reservations)
    && Backed(db)
    && Reconciled(db)
    && ReceivedApart(db.grnItems, |db.stock.batches|)
  }

  /** Active reservations exceed reserved stock by no less, lot by lot. */
  ghost predicate SlackGrows(db: Db, t: Db) {
    forall lot: Lot :: Slack(t, lot) >= Slack(db, lot)
  }

  ghost predicate SameSlack(db: Db, t: Db) {
    forall lot: Lot :: Slack(t, lot) == Slack(db, lot)
  }

  /** What almost every operation does to the invariants. */
  ghost predicate Keeps(db: Db, t: Db) {
    && Core(t)
    && SameSlack(db, t)
    && (AllHoldBalanced(db) ==> AllHoldBalanced(t))
  }

  // ----- lemmas for all services -----

  /** How a posting changes the three sums the invariants speak of: a lot's whole
      stock, its reserved stock, and the batch's stock in quality hold. */
  ghost predicate Changes(before: seq<Row>, after: seq<Row>, lot: Lot, total: real, reserved: real, held: real) {
    && (forall other: Lot ::
          OnHand(after, OfLot(other)) == OnHand(before, OfLot(other)) + (if other == lot then total else 0.0))
    && (forall other: Lot ::
          OnHand(after, OfLotIn(other, Reserved))
          == OnHand(before, OfLotIn(other, Reserved)) + (if other == lot then reserved else 0.0))
    && (forall batch: nat ::
          OnHand(after, HoldOf(batch)) == OnHand(before, HoldOf(batch)) + (if batch == lot.batch then held else 0.0))
  }

  lemma ShiftChanges(before: seq<Row>, after: seq<Row>, key: Key, delta: real)
    requires Shifts(before, after, key, delta)
    ensures Changes(before, after, key.lot, delta, (if key.status == Reserved then delta else 0.0),
              (if key.status == QualityHold then delta else 0.0))
  {
    forall other: Lot
      ensures OnHand(after, OfLot(other)) == OnHand(before, OfLot(other)) + (if other == key.lot then delta else 0.0)
      ensures OnHand(after, OfLotIn(other, Reserved))
              == OnHand(before, OfLotIn(other, Reserved))
                 + (if other == key.lot then (if key.status == Reserved then delta else 0.0) else 0.0)
    {
    }
    forall batch: nat
      ensures OnHand(after, HoldOf(batch))
                == OnHand(before, HoldOf(batch))
                    + (if batch == key.lot.batch then (if key.status == QualityHold then delta else 0.0) else 0.0)
    {
    }
  }

  lemma ComposeChanges(
      a: seq<Row>, b: seq<Row>, c: seq<Row>, lot: Lot, t1: real, r1: real, h1: real, t2: real, r2: real, h2: real)
    requires Changes(a, b, lot, t1, r1, h1) && Changes(b, c, lot, t2, r2, h2)
    ensures Changes(a, c, lot, t1 + t2, r1 + r2, h1 + h2)
  {
  }

  lemma AddedChanges(s: Stock, key: Key, quantity: real, kind: Kind)
    requires Agrees(s) && Added(s, key, quantity, kind).Ok?
    ensures var t := Added(s, key, quantity, kind).value;
            && Agrees(t) && t.batches == s.batches
            && Changes(s.rows, t.rows, key.lot, quantity, (if key.status == Reserved then quantity else 0.0),
                (if key.status == QualityHold then quantity else 0.0))
  {
    AddedAgrees(s, key, quantity, kind);
    ShiftChanges(s.rows, Added(s, key, quantity, kind).value.rows, key, quantity);
  }

  lemma DeductedChanges(s: Stock, key: Key, quantity: real, kind: Kind)
    requires Agrees(s) && Deducted(s, key, quantity, kind).Ok?
    ensures var t := Deducted(s, key, quantity, kind).value;
            && Agrees(t) && t.batches == s.batches
            && Changes(s.rows, t.rows, key.lot, -quantity, (if key.status == Reserved then -quantity else 0.0),
                (if key.status == QualityHold then -quantity else 0.0))
  {
    DeductedAgrees(s, key, quantity, kind);
    ShiftChanges(s.rows, Deducted(s, key, quantity, kind).value.rows, key, -quantity);
  }

  /** A move within a lot leaves the lot's whole stock as it is. */
  lemma MovedChanges(s: Stock, from: Key, to: Key, quantity: real, outKind: Kind, inKind: Kind)
    requires Agrees(s) && from.lot == to.lot && Moved(s, from, to, quantity, outKind, inKind).Ok?
    ensures var t := Moved(s, from, to, quantity, outKind, inKind).value;
            && Agrees(t) && t.batches == s.batches
            && Changes(s.rows, t.rows, from.lot, 0.0,
                       (if to.status == Reserved then quantity else 0.0)
                           - (if from.status == Reserved then quantity else 0.0),
                       (if to.status == QualityHold then quantity else 0.0)
                           - (if from.status == QualityHold then quantity else 0.0))
  {
    var u := Deducted(s, from, quantity, outKind).value;
    DeductedChanges(s, from, quantity, outKind);
    AddedChanges(u, to, quantity, inKind);
    ComposeChanges(s.rows, u.rows, Added(u, to, quantity, inKind).value.rows, from.lot,
                   -quantity, (if from.status == Reserved then -quantity else 0.0),
                       (if from.status == QualityHold then -quantity else 0.0),
                   quantity, (if to.status == Reserved then quantity else 0.0),
                       (if to.status == QualityHold then quantity else 0.0));
  }

  /** The same for postings made only when there is something to post. */
  lemma AddedIfChanges(s: Stock, key: Key, quantity: real, kind: Kind)
    requires Agrees(s) && AddedIfPositive(s, key, quantity, kind).Ok?
    ensures var t := AddedIfPositive(s, key, quantity, kind).value;
            var q := (if quantity > 0.0 then quantity else 0.0);
            && Agrees(t) && t.batches == s.batches
            && Changes(s.rows, t.rows, key.lot, q, (if key.status == Reserved then q else 0.0),
                (if key.status == QualityHold then q else 0.0))
  {
    if quantity > 0.0 {
      AddedChanges(s, key, quantity, kind);
    }
  }

  lemma MovedIfChanges(s: Stock, from: Key, to: Key, quantity: real, outKind: Kind, inKind: Kind)
    requires Agrees(s) && from.lot == to.lot && MovedIfPositive(s, from, to, quantity, outKind, inKind).Ok?
    ensures var t := MovedIfPositive(s, from, to, quantity, outKind, inKind).value;
            var q := (if quantity > 0.0 then quantity else 0.0);
            && Agrees(t) && t.batches == s.batches
            && Changes(s.rows, t.rows, from.lot, 0.0,
                       (if to.status == Reserved then q else 0.0) - (if from.status == Reserved then q else 0.0),
                       (if to.status == QualityHold then q else 0.0) - (if from.status == QualityHold then q else 0.0))
  {
    if quantity > 0.0 {
      MovedChanges(s, from, to, quantity, outKind, inKind);
    }
  }

  /** A posting keeps the core when documents explain the lot's change and active
      reservations rise at least as much as reserved stock. */
  lemma ChangesKeepCore(db: Db, t: Db, lot: Lot, total: real, reserved: real, held: real)
    requires Core(db) && Agrees(t.stock) && OnBatches(t.reservations) && ReceivedApart(t.grnItems, |t.stock.batches|)
    requires Changes(db.stock.rows, t.stock.rows, lot, total, reserved, held)
    requires forall other: Lot :: Documented(t, other) == Documented(db, other) + (if other == lot then total else 0.0)
    requires forall other: Lot :: Held(t.reservations, other) >= Held(db.reservations, other)
              + (if other == lot then reserved else 0.0)
    ensures Core(t) && SlackGrows(db, t)
  {
    forall other: Lot
      ensures OnHand(t.stock.rows, OfLot(other)) == Documented(t, other)
      ensures Slack(t, other) >= Slack(db, other) >= 0.0
    {
    }
  }

  /** Slack stays the same when reservations rise exactly as reserved stock does. */
  lemma ChangesKeepSlack(db: Db, t: Db, lot: Lot, total: real, reserved: real, held: real)
    requires Changes(db.stock.rows, t.stock.rows, lot, total, reserved, held)
    requires forall other: Lot :: Held(t.reservations, other)
              == Held(db.reservations, other) + (if other == lot then reserved else 0.0)
    ensures SameSlack(db, t)
  {
  }

  /** A posting that leaves quality hold alone keeps every line's hold balance. */
  lemma ChangesKeepHold(db: Db, t: Db, lot: Lot, total: real, reserved: real)
    requires Changes(db.stock.rows, t.stock.rows, lot, total, reserved, 0.0)
    requires t.grnItems == db.grnItems
    ensures AllHoldBalanced(db) ==> AllHoldBalanced(t)
  {
    if AllHoldBalanced(db) {
      forall i: nat | i < |t.grnItems|
        ensures HoldBalanced(t, i)
      {
        assert HoldBalanced(db, i);
      }
    }
  }

  lemma {:induction false} OnHandNonNegative(rows: seq<Row>, batches: nat, w: Where)
    requires Sound(rows, batches)
    ensures OnHand(rows, w) >= 0.0
  {
    if rows == [] {
    } else {
      OnHandNonNegative(rows[..|rows| - 1], batches, w);
    }
  }

  lemma {:induction false} RowWithinSum(rows: seq<Row>, batches: nat, i: nat, w: Where)
    requires Sound(rows, batches) && i < |rows| && w.Hits(rows[i].key)
    ensures rows[i].quantity <= OnHand(rows, w)
  {
    var n := |rows| - 1;
    OnHandNonNegative(rows[..n], batches, w);
    if i == n {
    } else {
      RowWithinSum(rows[..n], batches, i, w);
    }
  }

  /** Inspection never decides on more than was put into hold. */
  lemma DecidedWithinHold(db: Db, i: nat)
    requires Core(db) && i < |db.grnItems| && HoldBalanced(db, i)
    ensures db.grnItems[i].accepted + db.grnItems[i].rejected <= PutOnHold(db.grnItems[i])
  {
    OnHandNonNegative(db.stock.rows, |db.stock.batches|, HoldOf(db.grnItems[i].lot.batch));
  }

  /** A GRN line books exactly what was received when and only when its damaged
      part lies between nothing and all of it. */
  lemma BookedIsReceived(item: GrnItem)
    requires item.received > 0.0
    ensures Booked(item) == item.received <==> 0.0 <= item.damage <= item.received
  {
  }

  lemma {:induction false} BookedNone(items: seq<GrnItem>, lot: Lot)
    requires forall i | 0 <= i < |items| :: items[i].lot != lot
    ensures BookedOf(items, lot) == 0.0
  {
    if items == [] {
    } else {
      BookedNone(items[..|items| - 1], lot);
    }
  }

  lemma {:induction false} BookedOwn(items: seq<GrnItem>, batches: nat, i: nat)
    requires ReceivedApart(items, batches) && i < |items|
    ensures BookedOf(items, items[i].lot) == Booked(items[i])
  {
    var n := |items| - 1;
    if i == n {
      BookedNone(items[..n], items[i].lot);
    } else {
      BookedOwn(items[..n], batches, i);
    }
  }

  /** A GRN line's lot has what was received, plus finished and returned, less issued
      and shipped, exactly when the line's damaged part lies between nothing and all. */
  lemma ReceivedReconciles(db: Db, i: nat)
    requires Core(db) && i < |db.grnItems|
    ensures var item := db.grnItems[i];
            OnHand(db.stock.rows, OfLot(item.lot))
            == item.received + LinesOf(db.fgItems, item.lot) + LinesOf(db.returnItems, item.lot)
               - IssuedOf(db.issueItems, item.lot) - ShippedOf(db.dispatches, item.lot)
            <==> 0.0 <= item.damage <= item.received
  {
    var item := db.grnItems[i];
    BookedOwn(db.grnItems, |db.stock.batches|, i);
    BookedIsReceived(item);
    assert OnHand(db.stock.rows, OfLot(item.lot)) == Documented(db, item.lot);
  }

  lemma BookedAppend(items: seq<GrnItem>, item: GrnItem, lot: Lot)
    ensures BookedOf(items + [item], lot) == BookedOf(items, lot) + (if item.lot == lot then Booked(item) else 0.0)
  {
    assert (items + [item])[..|items|] == items;
  }

  /** Deciding on a line's inspection does not change what it booked. */
  lemma {:induction false} BookedUpdate(items: seq<GrnItem>, i: nat, item: GrnItem, lot: Lot)
    requires i < |items| && item.lot == items[i].lot && Booked(item) == Booked(items[i])
    ensures BookedOf(items[i := item], lot) == BookedOf(items, lot)
  {
    var n := |items| - 1;
    if i == n {
      assert items[i := item][..n] == items[..n];
    } else {
      BookedUpdate(items[..n], i, item, lot);
      assert items[i := item][..n] == items[..n][i := item];
    }
  }

  lemma IssuedAppend(items: seq<IssueItem>, item: IssueItem, lot: Lot)
    ensures IssuedOf(items + [item], lot) == IssuedOf(items, lot) + (if item.lot == lot then item.quantity else 0.0)
  {
    assert (items + [item])[..|items|] == items;
  }

  /** The invariants look at stock, reservations, GRN items and posted lines only. */
  lemma SameStore(db: Db, t: Db)
    requires t.stock == db.stock && t.reservations == db.reservations && t.grnItems == db.grnItems
    requires t.fgItems == db.fgItems && t.returnItems == db.returnItems && t.issueItems == db.issueItems
              && t.dispatches == db.dispatches
    ensures Core(db) ==> Keeps(db, t)
    ensures SameSlack(db, t)
  {
    if Core(db) {
      forall lot: Lot
        ensures OnHand(t.stock.rows, OfLot(lot)) == Documented(t, lot) && Slack(t, lot) >= 0.0
      {
        assert OnHand(db.stock.rows, OfLot(lot)) == Documented(db, lot) && Slack(db, lot) >= 0.0;
      }
    }
    if AllHoldBalanced(db) {
      forall i: nat | i < |t.grnItems|
        ensures HoldBalanced(t, i)
      {
        assert HoldBalanced(db, i);
      }
    }
  }

  /** The order of rows matters to none of them. */
  lemma ReorderKeeps(db: Db, rows: seq<Row>)
    requires Core(db) && multiset(rows) == multiset(db.stock.rows)
    ensures Keeps(db, db.(stock := db.stock.(rows := rows)))
  {
    var t := db.(stock := db.stock.(rows := rows));
    ReorderAgrees(db.stock, rows);
    forall lot: Lot
      ensures OnHand(t.stock.rows, OfLot(lot)) == Documented(t, lot)
      ensures Slack(t, lot) == Slack(db, lot) >= 0.0
    {
      assert OnHand(db.stock.rows, OfLot(lot)) == Documented(db, lot);
    }
    if AllHoldBalanced(db) {
      forall i: nat | i < |t.grnItems|
        ensures HoldBalanced(t, i)
      {
        assert HoldBalanced(db, i);
      }
    }
  }
}
