/** What reservations and production keep. */
module ProductionLaws {
  import opened Base
  import opened Tables
  import opened StockEngine
  import opened ReservationEngine
  import opened Invariants
  import opened Production
  import FifoEngine

  // ----- reservations -----

  lemma CreatedKeeps(db: Db, p: ReserveInput, fefoEnabled: bool, now: int)
    requires Core(db) && Created(db, p, fefoEnabled, now).Ok?
    ensures var t := Created(db, p, fefoEnabled, now).value;
            Keeps(db, t)
  {
    var t := Created(db, p, fefoEnabled, now).value;
    var from := CreatedEffect(db, p, fefoEnabled, now);
    MovedChanges(db.stock, from, from.(status := Reserved), p.quantity, ReserveOut, ReserveIn);
    assert Changes(db.stock.rows, t.stock.rows, from.lot, 0.0, p.quantity, 0.0);
    forall other: Lot
      ensures Held(t.reservations, other)
                == Held(db.reservations, other) + (if other == from.lot then p.quantity else 0.0)
    {
      HeldAppend(db.reservations, NewReservation(p, from.lot.batch, now), other);
    }
    ChangesKeepCore(db, t, from.lot, 0.0, p.quantity, 0.0);
    ChangesKeepHold(db, t, from.lot, 0.0, p.quantity);
    ChangesKeepSlack(db, t, from.lot, 0.0, p.quantity, 0.0);
  }

  lemma ReleasedChanges(db: Db, company: Id, id: nat) returns (lot: Lot, quantity: real)
    requires Core(db) && ReleasedIn(db, company, id).Ok?
    ensures var t := ReleasedIn(db, company, id).value;
            && t == db.(stock := t.stock, reservations := t.reservations)
            && Agrees(t.stock) && t.stock.batches == db.stock.batches && OnBatches(t.reservations)
            && Changes(db.stock.rows, t.stock.rows, lot, 0.0, -quantity, 0.0)
            && forall other :: Held(t.reservations, other)
                                 == Held(db.reservations, other) + (if other == lot then -quantity else 0.0)
  {
    var res := db.reservations[id];
    var from := ReleasedEffect(db, company, id);
    lot, quantity := from.lot, res.quantity;
    MovedChanges(db.stock, from, from.(status := Available), quantity, UnreserveOut, UnreserveIn);
    forall other: Lot
      ensures Held(ReleasedIn(db, company, id).value.reservations, other)
                == Held(db.reservations, other) + (if other == lot then -quantity else 0.0)
    {
      ReleasedHeld(db.reservations, id, lot, other);
    }
  }

  lemma ReleasedKeeps(db: Db, company: Id, id: nat)
    requires Core(db) && ReleasedIn(db, company, id).Ok?
    ensures var t := ReleasedIn(db, company, id).value;
            Keeps(db, t)
  {
    var t := ReleasedIn(db, company, id).value;
    var lot, quantity := ReleasedChanges(db, company, id);
    ChangesKeepCore(db, t, lot, 0.0, -quantity, 0.0);
    ChangesKeepHold(db, t, lot, 0.0, -quantity);
    ChangesKeepSlack(db, t, lot, 0.0, -quantity, 0.0);
  }

  lemma ReleasedHeld(rs: seq<Reservation>, id: nat, lot: Lot, other: Lot)
    requires id < |rs| && rs[id].status.Active? && rs[id].quantity > 0.0 && HeldBy(rs[id], lot) == rs[id].quantity
    ensures Held(rs[id := rs[id].(status := Released)], other)
              == Held(rs, other) - (if other == lot then rs[id].quantity else 0.0)
  {
    HeldUpdate(rs, id, rs[id].(status := Released), other);
  }

  lemma ShuffledKeeps(db: Db, shuffles: Shuffles)
    requires Core(db)
    ensures Keeps(db, Shuffled(db, shuffles))
  {
    SameStore(db, db);
    if Shuffled(db, shuffles) != db {
      ReorderKeeps(db, shuffles[0]);
    }
  }

  /** Automatic reservation touches stock and reservations only. */
  lemma {:induction false} PicksReservedFrame(
      db: Db, order: ForOrder, material: Id, picks: seq<FifoEngine.Pick>, shuffles: Shuffles)
    ensures var t := PicksReserved(db, order, material, picks, shuffles).db;
            t == db.(stock := t.stock, reservations := t.reservations)
    decreases |picks|
  {
    if picks == [] {
    } else {
      var r := PickReserved(Shuffled(db, shuffles), order, material, picks[0]);
      if r.Ok? {
        PicksReservedFrame(r.value, order, material, picks[1..], Later(shuffles));
      }
    }
  }

  lemma WantReservedFrame(db: Db, order: ForOrder, want: Want, shuffles: Shuffles)
    ensures var t := WantReserved(db, order, want, shuffles).db;
            t == db.(stock := t.stock, reservations := t.reservations)
  {
    var d := Shuffled(db, shuffles);
    PicksReservedFrame(d, order, want.material, SuggestionFor(d, order, want).picks, Later(shuffles));
  }

  lemma {:induction false} WantsReservedFrame(db: Db, order: ForOrder, wants: seq<Want>, shuffles: seq<Shuffles>)
    ensures var t := WantsReserved(db, order, wants, shuffles).db;
            t == db.(stock := t.stock, reservations := t.reservations)
    decreases |wants|
  {
    if wants == [] {
    } else {
      WantReservedFrame(db, order, wants[0], Next(shuffles));
      WantsReservedFrame(WantReserved(db, order, wants[0], Next(shuffles)).db, order, wants[1..], Later(shuffles));
    }
  }

  /** Automatic reservation keeps every invariant, also when it fails half-way, in whatever
      order the database answers. */
  lemma {:induction false} PicksReservedKeep(
      db: Db, order: ForOrder, material: Id, picks: seq<FifoEngine.Pick>, shuffles: Shuffles)
    requires Core(db)
    ensures Keeps(db, PicksReserved(db, order, material, picks, shuffles).db)
    decreases |picks|
  {
    if picks == [] {
    } else {
      var d := Shuffled(db, shuffles);
      ShuffledKeeps(db, shuffles);
      if PickReserved(d, order, material, picks[0]).Ok? {
        CreatedKeeps(d, InputFor(order, material, picks[0]), order.fefoEnabled, order.now);
        PicksReservedKeep(PickReserved(d, order, material, picks[0]).value, order, material, picks[1..],
            Later(shuffles));
      }
    }
  }

  lemma WantReservedKeeps(db: Db, order: ForOrder, want: Want, shuffles: Shuffles)
    requires Core(db)
    ensures Keeps(db, WantReserved(db, order, want, shuffles).db)
  {
    var d := Shuffled(db, shuffles);
    ShuffledKeeps(db, shuffles);
    PicksReservedKeep(d, order, want.material, SuggestionFor(d, order, want).picks, Later(shuffles));
  }

  lemma {:induction false} WantsReservedKeep(db: Db, order: ForOrder, wants: seq<Want>, shuffles: seq<Shuffles>)
    requires Core(db)
    ensures Keeps(db, WantsReserved(db, order, wants, shuffles).db)
    decreases |wants|
  {
    if wants == [] {
    } else {
      WantReservedKeeps(db, order, wants[0], Next(shuffles));
      WantsReservedKeep(WantReserved(db, order, wants[0], Next(shuffles)).db, order, wants[1..], Later(shuffles));
    }
  }

  lemma RequestOpenedKeeps(db: Db, company: Id, productionOrder: Option<Id>, wants: seq<Want>)
    ensures var t := RequestOpened(db, company, productionOrder, wants);
            Core(db) ==> Keeps(db, t)
  {
    SameStore(db, RequestOpened(db, company, productionOrder, wants));
  }

  // ----- finished goods -----

  lemma FreshLotAdded(s: Stock, batch: Batch, warehouse: Id, location: Option<Id>, quantity: real)
    requires Agrees(s) && quantity > 0.0
    ensures var lot := Lot(batch.company, batch.material, |s.batches|);
            var r := Added(s.(batches := s.batches + [batch]), Key(lot, warehouse, location, Available), quantity,
                FgReceipt);
            && r.Ok? && Agrees(r.value) && r.value.batches == s.batches + [batch]
            && Changes(s.rows, r.value.rows, lot, quantity, 0.0, 0.0)
  {
    var lot := Lot(batch.company, batch.material, |s.batches|);
    var stock := s.(batches := s.batches + [batch]);
    assert Agrees(stock);
    AddedChanges(stock, Key(lot, warehouse, location, Available), quantity, FgReceipt);
  }

  lemma FgReceivedKeeps(
      db: Db, company: Id, productionOrder: Id, material: Id, warehouse: Id, quantity: real, location: Option<Id>,
      expiryDate: Option<int>, batchNumber: int, now: int)
    requires Core(db)
    requires FgReceived(db, company, productionOrder, material, warehouse, quantity, location, expiryDate,
              batchNumber, now).Ok?
    ensures var t := FgReceived(db, company, productionOrder, material, warehouse, quantity, location, expiryDate,
              batchNumber, now).value;
            Keeps(db, t)
  {
    var t := FgReceived(db, company, productionOrder, material, warehouse, quantity, location, expiryDate,
        batchNumber, now).value;
    var lot := Lot(company, material, |db.stock.batches|);
    FreshLotAdded(db.stock, Batch(company, material, batchNumber, now, expiryDate), warehouse, location, quantity);
    FinishedKeeps(db, t, lot, quantity);
  }

  lemma FinishedKeeps(db: Db, t: Db, lot: Lot, quantity: real)
    requires Core(db) && Agrees(t.stock) && |db.stock.batches| <= |t.stock.batches|
    requires t == db.(stock := t.stock, fgItems := db.fgItems + [DocItem(lot, quantity)])
    requires Changes(db.stock.rows, t.stock.rows, lot, quantity, 0.0, 0.0)
    ensures Keeps(db, t)
  {
    forall other: Lot
      ensures Documented(t, other) == Documented(db, other) + (if other == lot then quantity else 0.0)
    {
    }
    ChangesKeepCore(db, t, lot, quantity, 0.0, 0.0);
    ChangesKeepHold(db, t, lot, quantity, 0.0);
    ChangesKeepSlack(db, t, lot, quantity, 0.0, 0.0);
  }

  // ----- rounding -----

  /** An exploded quantity is the scaled one rounded to the nearest multiple of 0.0001,
      and rounding again changes nothing. */
  lemma RoundedToNearest(x: real)
    ensures -0.00005 < RoundToUnit(x) - x <= 0.00005
    ensures exists n :: RoundToUnit(x) == Units(n)
    ensures RoundToUnit(RoundToUnit(x)) == RoundToUnit(x)
  {
    var n := (x * 10000.0 + 0.5).Floor;
    assert RoundToUnit(x) * 10000.0 + 0.5 == n as real + 0.5;
    assert (n as real + 0.5).Floor == n;
  }

  // ----- reserving without naming a batch -----

  /** A move rewrites at most the source's and the target's rows. */
  ghost predicate Rewrites(before: seq<Row>, after: seq<Row>, from: Key, to: Key, quantity: real) {
    && |before| <= |after|
    && (forall k | 0 <= k < |before| :: after[k].key == before[k].key)
    && (forall k | 0 <= k < |before| && before[k].key != from && before[k].key != to :: after[k] == before[k])
    && (forall k | 0 <= k < |before| && before[k].key == from :: after[k].quantity == before[k].quantity - quantity)
    && (forall k | |before| <= k < |after| :: after[k].key == to)
  }

  lemma MoveSucceeds(s: Stock, i: nat, to: Key, quantity: real, outKind: Kind, inKind: Kind)
    requires Agrees(s) && i < |s.rows| && 0.0 < quantity <= s.rows[i].quantity
    requires to.lot == s.rows[i].key.lot && to != s.rows[i].key
    ensures var r := Moved(s, s.rows[i].key, to, quantity, outKind, inKind);
            r.Ok? && Rewrites(s.rows, r.value.rows, s.rows[i].key, to, quantity)
  {
    var u := Deducted(s, s.rows[i].key, quantity, outKind).value;
    DeductedAgrees(s, s.rows[i].key, quantity, outKind);
    RowHoldsKey(u.rows, to);
  }

  /** The rows a reservation without a batch is suggested, oldest first. */
  function ShelfFor(db: Db, p: ReserveInput, fefoEnabled: bool): seq<Row> {
    FifoEngine.Shelf(db.stock, FifoEngine.UsesFefo(db.masters, p.company, p.material, fefoEnabled),
                     FifoEngine.StockOf(p.company, p.material, p.warehouse, Available))
  }

  lemma FirstPickIs(shelf: seq<Row>, quantity: real)
    requires shelf != [] && 0.0 < quantity
    ensures var s := FifoEngine.Suggested(shelf, quantity);
            && s.picks != [] && s.picks[0].row == shelf[0]
            && (quantity <= shelf[0].quantity ==> s.fullyCovered)
  {
    var left := quantity - Min(shelf[0].quantity, quantity);
    assert FifoEngine.Left(shelf, quantity) == FifoEngine.Left(shelf[1..], left);
  }

  lemma HeadIsRow(db: Db, p: ReserveInput, fefoEnabled: bool) returns (i: nat)
    requires ShelfFor(db, p, fefoEnabled) != []
    ensures i < |db.stock.rows| && db.stock.rows[i] == ShelfFor(db, p, fefoEnabled)[0]
    ensures db.stock.rows[i].key.status == Available
  {
    var shelf := ShelfFor(db, p, fefoEnabled);
    FifoEngine.ShelfOrders(db.stock, FifoEngine.UsesFefo(db.masters, p.company, p.material, fefoEnabled),
                           FifoEngine.StockOf(p.company, p.material, p.warehouse, Available));
    assert shelf[0] in shelf;
    i :| 0 <= i < |db.stock.rows| && db.stock.rows[i] == shelf[0];
  }

  /** Whether or not all rows together suffice, the source is the oldest row. */
  lemma SourceIsHead(db: Db, p: ReserveInput, fefoEnabled: bool)
    requires p.batch.None? && p.quantity > 0.0
    ensures var shelf := ShelfFor(db, p, fefoEnabled);
            && (SourceRow(db, p, fefoEnabled).Ok?
                ==> shelf != [] && SourceRow(db, p, fefoEnabled).value == shelf[0].key)
            && (shelf != [] && p.quantity <= shelf[0].quantity ==> SourceRow(db, p, fefoEnabled).Ok?)
  {
    var shelf := ShelfFor(db, p, fefoEnabled);
    if shelf != [] {
      FirstPickIs(shelf, p.quantity);
    }
  }

  /** Without a batch a reservation succeeds exactly when the oldest row alone holds
      the whole quantity: the suggestion may span rows, but only its first pick is used. */
  lemma WithoutBatchExactlyWhen(db: Db, p: ReserveInput, fefoEnabled: bool, now: int)
    requires Agrees(db.stock) && p.batch.None?
    ensures var shelf := ShelfFor(db, p, fefoEnabled);
            Created(db, p, fefoEnabled, now).Ok?
            <==> && p.quantity > 0.0 && KnownMaterial(db.masters, p.company, p.material)
                 && shelf != [] && p.quantity <= shelf[0].quantity
  {
    if p.quantity > 0.0 && ShelfFor(db, p, fefoEnabled) != [] {
      var i := HeadIsRow(db, p, fefoEnabled);
      var from := db.stock.rows[i].key;
    }
    if p.quantity > 0.0 {
      SourceIsHead(db, p, fefoEnabled);
    }
  }

  // ----- when reserving and releasing succeed, and what they record -----

  lemma NamedBatchExactlyWhen(db: Db, p: ReserveInput, fefoEnabled: bool, now: int)
    requires Agrees(db.stock) && p.batch.Some?
    ensures Created(db, p, fefoEnabled, now).Ok? <==>
              && p.quantity > 0.0 && p.material in db.masters.materials
              && db.masters.materials[p.material].company == p.company
              && InOneRow(db.stock, Lot(p.company, p.material, p.batch.value), Available, p.warehouse, None, p.quantity)
  {
    var i := Find(db.stock.rows, OnBatch(p), Some(p.quantity));
    if i < |db.stock.rows| {
      var from := db.stock.rows[i].key;
      MovedExactlyWhen(db.stock, from, from.(status := Reserved), p.quantity, ReserveOut, ReserveIn);
      RowAt(db.stock, i);
    }
  }

  /** A reservation takes its quantity from one available row to reserved stock in the same
      place, and is recorded as it was asked for, with priority five unless one is given. */
  lemma CreatedRecords(db: Db, p: ReserveInput, fefoEnabled: bool, now: int) returns (from: Key)
    requires Agrees(db.stock) && Created(db, p, fefoEnabled, now).Ok?
    ensures var t := Created(db, p, fefoEnabled, now).value;
            && from.lot == Lot(p.company, p.material, from.lot.batch) && from.status == Available
            && (p.batch.Some? ==> from.lot.batch == p.batch.value)
            && (p.warehouse.Some? ==> from.warehouse == p.warehouse.value)
            && t == db.(stock := t.stock,
                        reservations := db.reservations
                          + [Reservation(p.company, p.material, Some(from.lot.batch), p.productionOrder, p.quantity,
                                         if p.priority.Some? then p.priority.value else 5, now, Active)])
            && forall key: Key :: At(t.stock, key) == At(db.stock, key)
                 + (if key == from then -p.quantity else if key == from.(status := Reserved) then p.quantity else 0.0)
  {
    from := SourceRow(db, p, fefoEnabled).value;
    SourceIsAvailable(db, p, fefoEnabled);
    MovedAgrees(db.stock, from, from.(status := Reserved), p.quantity, ReserveOut, ReserveIn);
    MoveAt(db.stock, Created(db, p, fefoEnabled, now).value.stock, from, from.(status := Reserved), p.quantity);
  }

  lemma MoveAt(s: Stock, t: Stock, from: Key, to: Key, quantity: real)
    requires Transfers(s.rows, t.rows, from, to, quantity) && from != to
    ensures forall key: Key :: At(t, key) == At(s, key)
              + (if key == from then -quantity else if key == to then quantity else 0.0)
  {
    forall key: Key
      ensures At(t, key) == At(s, key) + (if key == from then -quantity else if key == to then quantity else 0.0)
    {
      TransferAt(s, t, from, to, quantity, key);
    }
  }

  lemma ReleasedExactlyWhen(db: Db, company: Id, id: nat)
    requires Agrees(db.stock) && OnBatches(db.reservations)
    ensures ReleasedIn(db, company, id).Ok? <==>
              && id < |db.reservations| && db.reservations[id].company == company
              && db.reservations[id].status == Active && db.reservations[id].batch.Some?
              && InOneRow(db.stock, Lot(company, db.reservations[id].material, db.reservations[id].batch.value),
                          Reserved, None, None, db.reservations[id].quantity)
  {
    if id < |db.reservations| && db.reservations[id].status == Active && db.reservations[id].batch.Some? {
      var res := db.reservations[id];
      var i := Find(db.stock.rows, OfLotIn(Lot(company, res.material, res.batch.value), Reserved), Some(res.quantity));
      if i < |db.stock.rows| {
        var from := db.stock.rows[i].key;
        MovedExactlyWhen(db.stock, from, from.(status := Available), res.quantity, UnreserveOut, UnreserveIn);
        RowAt(db.stock, i);
      }
    }
  }

  /** A release returns the whole reservation from one reserved row of its lot to available
      stock in the same place, and changes nothing of it but its status. */
  lemma ReleasedRecords(db: Db, company: Id, id: nat) returns (from: Key)
    requires Agrees(db.stock) && OnBatches(db.reservations) && ReleasedIn(db, company, id).Ok?
    ensures var t := ReleasedIn(db, company, id).value;
            && id < |db.reservations|
            && var res := db.reservations[id];
            && res.batch.Some? && from.lot == Lot(company, res.material, res.batch.value) && from.status == Reserved
            && t == db.(stock := t.stock, reservations := db.reservations[id := res.(status := Released)])
            && forall key: Key :: At(t.stock, key) == At(db.stock, key)
                 + (if key == from then -res.quantity
                    else if key == from.(status := Available) then res.quantity else 0.0)
  {
    from := ReleasedEffect(db, company, id);
    MoveAt(db.stock, ReleasedIn(db, company, id).value.stock, from, from.(status := Available),
        db.reservations[id].quantity);
  }
}
