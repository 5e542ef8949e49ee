/** Dispatch orders: drafted, then shipped once from available stock. */
module Dispatching {
  import opened Base
  import opened Tables
  import opened StockEngine
  import opened ReservationEngine
  import opened Invariants

  predicate LineAcceptable(db: Db, company: Id, line: DispatchLine) {
    && line.quantity > 0.0
    && KnownMaterial(db.masters, company, line.material)
    && (line.batch.Some? ==>
          && line.batch.value < |db.stock.batches|
          && db.stock.batches[line.batch.value].company == company
          && db.stock.batches[line.batch.value].material == line.material)
  }

  function Drafted(db: Db, company: Id, warehouse: Id, lines: seq<DispatchLine>): Result<Db> {
    if (company, warehouse) !in db.masters.warehouses then Err(NotFound)
    else if lines == [] then Err(BadRequest)
    else if exists i | 0 <= i < |lines| :: !LineAcceptable(db, company, lines[i]) then Err(BadRequest)
    else Ok(db.(dispatches := db.dispatches + [Dispatch(company, warehouse, Draft, lines)]))
  }

  /** Available stock of a line's batch in the order's warehouse. */
  function StockFor(company: Id, warehouse: Id, line: DispatchLine): Where
    requires line.batch.Some?
  {
    OfLotIn(Lot(company, line.material, line.batch.value), Available).(warehouse := Some(warehouse))
  }

  function LineShipped(s: Stock, company: Id, warehouse: Id, line: DispatchLine): Result<Stock> {
    if line.batch.None? then Err(BadRequest)
    else
      var i := Find(s.rows, StockFor(company, warehouse, line), Some(line.quantity));
      if i == |s.rows| then Err(InsufficientStock)
      else Deducted(s, s.rows[i].key, line.quantity, Dispatched)
  }

  function LinesShipped(s: Stock, company: Id, warehouse: Id, lines: seq<DispatchLine>): Result<Stock>
    decreases |lines|
  {
    if lines == [] then Ok(s)
    else
      var t :- LineShipped(s, company, warehouse, lines[0]);
      LinesShipped(t, company, warehouse, lines[1..])
  }

  function ShippedOut(db: Db, company: Id, id: nat): Result<Db> {
    if id >= |db.dispatches| || db.dispatches[id].company != company then Err(NotFound)
    else if !db.dispatches[id].status.Draft? then Err(Closed)
    else if db.dispatches[id].lines == [] then Err(BadRequest)
    else
      var order := db.dispatches[id];
      var stock :- LinesShipped(db.stock, company, order.warehouse, order.lines);
      Ok(db.(stock := stock, dispatches := db.dispatches[id := order.(status := Shipped)]))
  }

  method ShipLine(db: Database, company: Id, warehouse: Id, line: DispatchLine) returns (r: Result<()>)
    modifies db
    ensures match LineShipped(old(db.State()).stock, company, warehouse, line)
            case Ok(s) => r.Ok? && db.State() == old(db.State()).(stock := s)
            case Err(e) => r == Err(e)
  {
    if line.batch.None? {
      return Err(BadRequest);
    }
    var i := Find(db.rows, StockFor(company, warehouse, line), Some(line.quantity));
    if i == |db.rows| {
      return Err(InsufficientStock);
    }
    var _ :- Deduct(db, db.rows[i].key, line.quantity, Dispatched);
    return Ok(());
  }

  /** Ships an order in one transaction. */
  method Ship(db: Database, company: Id, id: nat) returns (r: Result<()>)
    modifies db
    ensures match ShippedOut(old(db.State()), company, id)
            case Ok(s) => r.Ok? && db.State() == s
            case Err(e) => r == Err(e) && db.State() == old(db.State())
  {
    if id >= |db.dispatches| || db.dispatches[id].company != company {
      return Err(NotFound);
    }
    var order := db.dispatches[id];
    if !order.status.Draft? {
      return Err(Closed);
    }
    if order.lines == [] {
      return Err(BadRequest);
    }
    var before := db.State();
    var i := 0;
    while i < |order.lines|
      invariant 0 <= i <= |order.lines|
      invariant LinesShipped(db.State().stock, company, order.warehouse, order.lines[i..])
             == LinesShipped(before.stock, company, order.warehouse, order.lines)
      invariant db.State() == before.(stock := db.State().stock)
    {
      assert order.lines[i..][1..] == order.lines[i + 1..];
      var shipped := ShipLine(db, company, order.warehouse, order.lines[i]);
      if shipped.Err? {
        db.Rollback(before);
        return Err(shipped.error);
      }
      i := i + 1;
    }
    db.dispatches := db.dispatches[id := order.(status := Shipped)];
    return Ok(());
  }

  // ----- laws -----

  /** Shipping takes from every lot exactly what the lines say, all of it available. */
  ghost predicate Ships(before: seq<Row>, after: seq<Row>, company: Id, lines: seq<DispatchLine>) {
    && (forall lot: Lot :: OnHand(after, OfLot(lot))
          == OnHand(before, OfLot(lot)) - (if lot.company == company then DispatchLinesOf(lines, lot) else 0.0))
    && (forall lot: Lot :: OnHand(after, OfLotIn(lot, Reserved)) == OnHand(before, OfLotIn(lot, Reserved)))
    && (forall batch: nat :: OnHand(after, HoldOf(batch)) == OnHand(before, HoldOf(batch)))
  }

  lemma LineShippedTakes(s: Stock, company: Id, warehouse: Id, line: DispatchLine)
    requires Agrees(s) && LineShipped(s, company, warehouse, line).Ok?
    ensures var t := LineShipped(s, company, warehouse, line).value;
            && line.batch.Some? && Agrees(t) && t.batches == s.batches
            && Changes(s.rows, t.rows, Lot(company, line.material, line.batch.value), -line.quantity, 0.0, 0.0)
  {
    var key := s.rows[Find(s.rows, StockFor(company, warehouse, line), Some(line.quantity))].key;
    DeductedChanges(s, key, line.quantity, Dispatched);
    assert key.lot == Lot(company, line.material, line.batch.value);
  }

  lemma {:induction false} LinesShippedTake(s: Stock, company: Id, warehouse: Id, lines: seq<DispatchLine>)
    requires Agrees(s) && LinesShipped(s, company, warehouse, lines).Ok?
    ensures var t := LinesShipped(s, company, warehouse, lines).value;
            Agrees(t) && t.batches == s.batches && Ships(s.rows, t.rows, company, lines)
    decreases |lines|
  {
    if lines == [] {
    } else {
      LineShippedTakes(s, company, warehouse, lines[0]);
      LinesShippedTake(LineShipped(s, company, warehouse, lines[0]).value, company, warehouse, lines[1..]);
    }
  }

  lemma {:induction false} ShippedUpdate(orders: seq<Dispatch>, i: nat, lot: Lot)
    requires i < |orders| && orders[i].status.Draft?
    ensures ShippedOf(orders[i := orders[i].(status := Shipped)], lot)
         == ShippedOf(orders, lot)
             + (if orders[i].company == lot.company then DispatchLinesOf(orders[i].lines, lot) else 0.0)
  {
    var n := |orders| - 1;
    var order := orders[i].(status := Shipped);
    if i == n {
      assert orders[i := order][..n] == orders[..n];
    } else {
      ShippedUpdate(orders[..n], i, lot);
      assert orders[i := order][..n] == orders[..n][i := order];
    }
  }

  /** Shipping keeps every invariant: an order's lines count from then on, once. */
  lemma ShippedOutKeeps(db: Db, company: Id, id: nat)
    requires Core(db) && ShippedOut(db, company, id).Ok?
    ensures var t := ShippedOut(db, company, id).value;
            Keeps(db, t)
  {
    var t := ShippedOut(db, company, id).value;
    var order := db.dispatches[id];
    LinesShippedTake(db.stock, company, order.warehouse, order.lines);
    forall lot: Lot
      ensures OnHand(t.stock.rows, OfLot(lot)) == Documented(t, lot)
      ensures Slack(t, lot) == Slack(db, lot) >= 0.0
    {
      ShippedUpdate(db.dispatches, id, lot);
      assert Slack(db, lot) >= 0.0;
    }
    if AllHoldBalanced(db) {
      forall i: nat | i < |t.grnItems|
        ensures HoldBalanced(t, i)
      {
        assert HoldBalanced(db, i);
      }
    }
  }

  /** A dispatch is drafted exactly from a warehouse of the company, with lines of positive
      quantities of its materials, each of a batch of that material if it names one; it is
      recorded as asked and nothing is taken yet. */
  lemma DraftedExactlyWhen(db: Db, company: Id, warehouse: Id, lines: seq<DispatchLine>)
    ensures var r := Drafted(db, company, warehouse, lines);
            && (r.Ok? <==>
                  && (company, warehouse) in db.masters.warehouses && lines != []
                  && (forall i | 0 <= i < |lines| ::
                        && lines[i].quantity > 0.0 && lines[i].material in db.masters.materials
                        && db.masters.materials[lines[i].material].company == company)
                  && forall i | 0 <= i < |lines| && lines[i].batch.Some? ::
                       && lines[i].batch.value < |db.stock.batches|
                       && db.stock.batches[lines[i].batch.value].company == company
                       && db.stock.batches[lines[i].batch.value].material == lines[i].material)
            && (r.Ok? ==> r.value == db.(dispatches := db.dispatches + [Dispatch(company, warehouse, Draft, lines)]))
  {
  }

  lemma DraftedKeeps(db: Db, company: Id, warehouse: Id, lines: seq<DispatchLine>)
    requires Core(db) && Drafted(db, company, warehouse, lines).Ok?
    ensures var t := Drafted(db, company, warehouse, lines).value;
            Keeps(db, t)
  {
    var t := Drafted(db, company, warehouse, lines).value;
    assert t.dispatches[..|db.dispatches|] == db.dispatches;
    forall lot: Lot
      ensures OnHand(t.stock.rows, OfLot(lot)) == Documented(t, lot)
      ensures Slack(t, lot) == Slack(db, lot) >= 0.0
    {
      assert OnHand(db.stock.rows, OfLot(lot)) == Documented(db, lot) && Slack(db, lot) >= 0.0;
    }
    if AllHoldBalanced(db) {
      forall i: nat | i < |t.grnItems|
        ensures HoldBalanced(t, i)
      {
        assert HoldBalanced(db, i);
      }
    }
  }
}
