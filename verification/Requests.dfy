/** What requests and finished goods record. */
module Requests {
  import opened Base
  import opened Tables
  import opened StockEngine
  import opened Production
  import opened ProductionLaws
  import FifoEngine

  // ----- automatic reservations -----

  /** Only reservations made now for the order were appended. */
  predicate ReservesFor(before: seq<Reservation>, after: seq<Reservation>, order: ForOrder) {
    && |before| <= |after|
    && (forall i | 0 <= i < |before| :: after[i] == before[i])
    && forall i | |before| <= i < |after| ::
         && after[i].company == order.company && after[i].batch.Some?
         && after[i].productionOrder == order.productionOrder
         && after[i].priority == (if order.priority.Some? then order.priority.value else 5)
         && after[i].createdAt == order.now && after[i].status == Active
  }

  lemma {:induction false} PicksReserveFor(
      db: Db, order: ForOrder, material: Id, picks: seq<FifoEngine.Pick>, shuffles: Shuffles)
    ensures ReservesFor(db.reservations, PicksReserved(db, order, material, picks, shuffles).db.reservations, order)
    decreases |picks|
  {
    if picks == [] {
    } else {
      var r := PickReserved(Shuffled(db, shuffles), order, material, picks[0]);
      if r.Ok? {
        assert |r.value.reservations| == |db.reservations| + 1;
        PicksReserveFor(r.value, order, material, picks[1..], Later(shuffles));
        Continues(db.reservations, r.value.reservations,
            PicksReserved(db, order, material, picks, shuffles).db.reservations, order);
      }
    }
  }

  lemma Continues(a: seq<Reservation>, b: seq<Reservation>, c: seq<Reservation>, order: ForOrder)
    requires ReservesFor(a, b, order) && ReservesFor(b, c, order)
    ensures ReservesFor(a, c, order)
  {
    forall i | |a| <= i < |b|
      ensures c[i] == b[i]
    {
    }
  }

  lemma {:induction false} WantsReserveFor(db: Db, order: ForOrder, wants: seq<Want>, shuffles: seq<Shuffles>)
    ensures ReservesFor(db.reservations, WantsReserved(db, order, wants, shuffles).db.reservations, order)
    decreases |wants|
  {
    if wants == [] {
    } else {
      var d := Shuffled(db, Next(shuffles));
      var t := WantReserved(db, order, wants[0], Next(shuffles)).db;
      PicksReserveFor(d, order, wants[0].material, SuggestionFor(d, order, wants[0]).picks, Later(Next(shuffles)));
      WantsReserveFor(t, order, wants[1..], Later(shuffles));
      Continues(db.reservations, t.reservations, WantsReserved(t, order, wants[1..], Later(shuffles)).db.reservations,
          order);
    }
  }

  // ----- what a request records -----

  /** A pending request with a line for each want, none of it issued. */
  predicate Requested(before: Db, after: Db, company: Id, productionOrder: Option<Id>, wants: seq<Want>) {
    var n := |before.requestLines|;
    && after == before.(stock := after.stock, reservations := after.reservations,
                        requests := before.requests + [Request(company, productionOrder, Pending)],
                        requestLines := after.requestLines)
    && |after.requestLines| == n + |wants|
    && (forall i | 0 <= i < n :: after.requestLines[i] == before.requestLines[i])
    && forall i | 0 <= i < |wants| ::
         after.requestLines[n + i] == RequestLine(|before.requests|, wants[i].material, wants[i].quantity, 0.0)
  }

  predicate OfCompany(db: Db, company: Id, productionOrder: Id) {
    && productionOrder in db.masters.productionOrders
    && db.masters.productionOrders[productionOrder].company == company
  }

  /** The request names an order that is not the company's, or has no lines, or one that asks
      for nothing or for a material that is not the company's. */
  predicate Refused(db: Db, company: Id, productionOrder: Option<Id>, wants: seq<Want>) {
    || wants == []
    || (productionOrder.Some? && !OfCompany(db, company, productionOrder.value))
    || exists i | 0 <= i < |wants| :: wants[i].quantity <= 0.0 || wants[i].material !in db.masters.materials
         || db.masters.materials[wants[i].material].company != company
  }

  /** What is reserved for a request: for its order, with the order's priority. */
  function OrderOf(db: Db, company: Id, productionOrder: Option<Id>, fefoEnabled: bool, now: int): ForOrder
    requires productionOrder.Some? ==> productionOrder.value in db.masters.productionOrders
  {
    var priority := if productionOrder.Some? then Some(db.masters.productionOrders[productionOrder.value].priority)
                    else None;
    ForOrder(company, productionOrder, priority, fefoEnabled, now)
  }

  lemma OpenedRecords(
      db: Db, order: ForOrder, wants: seq<Want>, shuffles: seq<Shuffles>)
    ensures var a := WantsReserved(RequestOpened(db, order.company, order.productionOrder, wants), order, wants,
                shuffles);
            && Requested(db, a.db, order.company, order.productionOrder, wants)
            && ReservesFor(db.reservations, a.db.reservations, order)
  {
    var start := RequestOpened(db, order.company, order.productionOrder, wants);
    WantsReservedFrame(start, order, wants, shuffles);
    WantsReserveFor(start, order, wants, shuffles);
  }

  /** A refused request writes nothing. Any other is recorded as asked, and its lines are
      reserved for its order with the order's priority. */
  lemma RequestRecords(
      db: Db, company: Id, productionOrder: Option<Id>, wants: seq<Want>, fefoEnabled: bool, now: int,
      shuffles: seq<Shuffles>)
    ensures var a := RequestCreated(db, company, productionOrder, wants, fefoEnabled, now, shuffles);
            && (Refused(db, company, productionOrder, wants) ==> a.error.Some? && a.db == db)
            && (!Refused(db, company, productionOrder, wants) ==>
                  && var order := OrderOf(db, company, productionOrder, fefoEnabled, now);
                  && a == WantsReserved(RequestOpened(db, company, productionOrder, wants), order, wants, shuffles)
                  && Requested(db, a.db, company, productionOrder, wants)
                  && ReservesFor(db.reservations, a.db.reservations, order))
  {
    RefusedExactlyWhen(db, company, productionOrder, wants);
    if !Refused(db, company, productionOrder, wants) {
      OpenedRecords(db, OrderOf(db, company, productionOrder, fefoEnabled, now), wants, shuffles);
    }
  }

  lemma RefusedExactlyWhen(db: Db, company: Id, productionOrder: Option<Id>, wants: seq<Want>)
    ensures RequestRefusal(db, company, productionOrder, wants).Some? <==> Refused(db, company, productionOrder, wants)
  {
  }

  // ----- explosion -----

  /** y is x rounded to the nearest multiple of 0.0001, halves up. */
  predicate RoundsTo(x: real, y: real) {
    -0.00005 < y - x <= 0.00005 && (y * 10000.0).Floor as real == y * 10000.0
  }

  lemma RoundsRight(x: real)
    ensures RoundsTo(x, RoundToUnit(x))
  {
    RoundedToNearest(x);
    var n :| RoundToUnit(x) == Units(n);
    assert RoundToUnit(x) * 10000.0 == n as real;
  }

  /** The component in the quantity scaled, and raised by a positive scrap factor. */
  predicate Scaled(line: BomLine, quantity: real, want: Want) {
    var scrap := if line.scrapFactor.Some? && line.scrapFactor.value > 0.0 then line.scrapFactor.value else 0.0;
    want.material == line.component && RoundsTo(line.quantity * quantity * (1.0 + scrap), want.quantity)
  }

  predicate ScaledUp(lines: seq<BomLine>, quantity: real, wants: seq<Want>) {
    |wants| == |lines| && forall i | 0 <= i < |lines| :: Scaled(lines[i], quantity, wants[i])
  }

  lemma AmountScales(line: BomLine, quantity: real)
    ensures Scaled(line, quantity, Want(line.component, RoundToUnit(Amount(line, quantity))))
  {
    RoundsRight(Amount(line, quantity));
    if line.scrapFactor.Some? && line.scrapFactor.value > 0.0 {
      assert Amount(line, quantity) == line.quantity * quantity * (1.0 + line.scrapFactor.value);
    } else {
      assert Amount(line, quantity) == line.quantity * quantity * (1.0 + 0.0);
    }
  }

  lemma ExplodedScales(bom: Bom, quantity: real)
    ensures ScaledUp(bom.lines, quantity, Exploded(bom, quantity))
  {
    forall i | 0 <= i < |bom.lines|
      ensures Scaled(bom.lines[i], quantity, Exploded(bom, quantity)[i])
    {
      AmountScales(bom.lines[i], quantity);
    }
  }

  /** An explosion of nothing, of a BOM that is not an active one of the company with lines, or
      for an order that is not the company's, writes nothing. Any other requests, for each line
      of the BOM, its component in the quantity scaled and rounded, and reserves it for the
      order with the order's priority. */
  lemma ExplosionRecords(
      db: Db, company: Id, bom: Id, productionOrder: Id, quantity: real, fefoEnabled: bool, now: int,
      shuffles: seq<Shuffles>)
    returns (wants: seq<Want>)
    ensures var a := BomExploded(db, company, bom, productionOrder, quantity, fefoEnabled, now, shuffles);
            var refused := quantity <= 0.0 || bom !in db.masters.boms || db.masters.boms[bom].company != company
              || !db.masters.boms[bom].active || db.masters.boms[bom].lines == []
              || !OfCompany(db, company, productionOrder);
            && (refused ==> a.error.Some? && a.db == db)
            && (!refused ==>
                  && var order := OrderOf(db, company, Some(productionOrder), fefoEnabled, now);
                  && ScaledUp(db.masters.boms[bom].lines, quantity, wants)
                  && a == WantsReserved(RequestOpened(db, company, Some(productionOrder), wants), order, wants,
                                        shuffles)
                  && Requested(db, a.db, company, Some(productionOrder), wants)
                  && ReservesFor(db.reservations, a.db.reservations, order))
  {
    wants := [];
    if ExplodeRefusal(db, company, bom, productionOrder, quantity).None? {
      wants := Exploded(db.masters.boms[bom], quantity);
      ExplodedScales(db.masters.boms[bom], quantity);
      OpenedRecords(db, OrderOf(db, company, Some(productionOrder), fefoEnabled, now), wants, shuffles);
    }
  }

  // ----- finished goods -----

  /** Finished goods are received exactly in a positive quantity, of a material and for an order
      of the company: into a new batch, available in the place named, and nowhere else. */
  lemma FgReceivedExactlyWhen(
      db: Db, company: Id, productionOrder: Id, material: Id, warehouse: Id, quantity: real, location: Option<Id>,
      expiryDate: Option<int>, batchNumber: int, now: int, key: Key)
    requires Agrees(db.stock)
    ensures var r := FgReceived(db, company, productionOrder, material, warehouse, quantity, location, expiryDate,
                batchNumber, now);
            && (r.Ok? <==> (&& quantity > 0.0 && OfCompany(db, company, productionOrder)
                            && material in db.masters.materials && db.masters.materials[material].company == company))
            && (r.Ok? ==>
                  Finished(db, r.value, Batch(company, material, batchNumber, now, expiryDate), quantity, warehouse,
                           location, key))
  {
    var batch := Batch(company, material, batchNumber, now, expiryDate);
    if quantity > 0.0 {
      FinishedAdded(db.stock, batch, warehouse, quantity, location, key);
    }
  }

  predicate Finished(
      before: Db, after: Db, batch: Batch, quantity: real, warehouse: Id, location: Option<Id>, key: Key)
  {
    var lot := Lot(batch.company, batch.material, |before.stock.batches|);
    && after == before.(stock := after.stock, fgItems := before.fgItems + [DocItem(lot, quantity)])
    && after.stock.batches == before.stock.batches + [batch]
    && At(after.stock, key) == At(before.stock, key)
         + (if key == Key(lot, warehouse, location, Available) then quantity else 0.0)
  }

  lemma FinishedAdded(s: Stock, batch: Batch, warehouse: Id, quantity: real, location: Option<Id>, key: Key)
    requires Agrees(s) && quantity > 0.0
    ensures var place := Key(Lot(batch.company, batch.material, |s.batches|), warehouse, location, Available);
            var r := Added(s.(batches := s.batches + [batch]), place, quantity, FgReceipt);
            && r.Ok? && r.value.batches == s.batches + [batch]
            && At(r.value, key) == At(s, key) + (if key == place then quantity else 0.0)
  {
    var place := Key(Lot(batch.company, batch.material, |s.batches|), warehouse, location, Available);
    var stock := s.(batches := s.batches + [batch]);
    assert Agrees(stock);
    AddedExactlyWhen(stock, place, quantity, FgReceipt);
    AddedAgrees(stock, place, quantity, FgReceipt);
    ShiftAt(stock, Added(stock, place, quantity, FgReceipt).value, place, quantity, key);
  }
}
