/** What automatic reservation moves. */
module AutoReserve {
  import opened Base
  import opened Tables
  import opened Sequences
  import opened StockEngine
  import opened ReservationEngine
  import opened Invariants
  import opened Production
  import opened ProductionLaws
  import FifoEngine

  // ----- what is moved -----

  /** Quantity on hand of a material in a status, over all batches and warehouses. */
  function InStatus(db: Db, company: Id, material: Id, status: Status): real {
    OnHand(db.stock.rows, FifoEngine.StockOf(company, material, None, status))
  }

  lemma ShuffledSame(db: Db, shuffles: Shuffles)
    requires Core(db)
    ensures var d := Shuffled(db, shuffles);
            && Core(d) && d == db.(stock := d.stock) && multiset(d.stock.rows) == multiset(db.stock.rows)
            && (forall w: Where :: OnHand(d.stock.rows, w) == OnHand(db.stock.rows, w))
  {
    ShuffledKeeps(db, shuffles);
    ReorderAgrees(db.stock, Shuffled(db, shuffles).stock.rows);
  }

  lemma TransferBetweenStatuses(before: seq<Row>, after: seq<Row>, from: Key, quantity: real)
    requires Transfers(before, after, from, from.(status := Reserved), quantity) && from.status == Available
    ensures var company, material := from.lot.company, from.lot.material;
            && OnHand(after, FifoEngine.StockOf(company, material, None, Available))
                == OnHand(before, FifoEngine.StockOf(company, material, None, Available)) - quantity
            && OnHand(after, FifoEngine.StockOf(company, material, None, Reserved))
                == OnHand(before, FifoEngine.StockOf(company, material, None, Reserved)) + quantity
  {
    var a := FifoEngine.StockOf(from.lot.company, from.lot.material, None, Available);
    var r := FifoEngine.StockOf(from.lot.company, from.lot.material, None, Reserved);
    assert a.Hits(from) && !r.Hits(from);
    assert !a.Hits(from.(status := Reserved)) && r.Hits(from.(status := Reserved));
  }

  /** A pick turns its quantity of the material from available into reserved, whatever row
      it is drawn from. */
  lemma PickMoves(db: Db, order: ForOrder, material: Id, pick: FifoEngine.Pick)
    requires Core(db) && PickReserved(db, order, material, pick).Ok?
    ensures var t := PickReserved(db, order, material, pick).value;
            && Core(t) && t == db.(stock := t.stock, reservations := t.reservations)
            && InStatus(t, order.company, material, Available)
                == InStatus(db, order.company, material, Available) - pick.quantity
            && InStatus(t, order.company, material, Reserved)
                == InStatus(db, order.company, material, Reserved) + pick.quantity
  {
    var p := InputFor(order, material, pick);
    var t := PickReserved(db, order, material, pick).value;
    CreatedKeeps(db, p, order.fefoEnabled, order.now);
    var from := CreatedEffect(db, p, order.fefoEnabled, order.now);
    TransferBetweenStatuses(db.stock.rows, t.stock.rows, from, pick.quantity);
  }

  lemma {:induction false} PicksMove(
      db: Db, order: ForOrder, material: Id, picks: seq<FifoEngine.Pick>, shuffles: Shuffles)
    requires Core(db) && PicksReserved(db, order, material, picks, shuffles).error.None?
    ensures var t := PicksReserved(db, order, material, picks, shuffles).db;
            && InStatus(t, order.company, material, Available)
                == InStatus(db, order.company, material, Available) - FifoEngine.Picked(picks)
            && InStatus(t, order.company, material, Reserved)
                == InStatus(db, order.company, material, Reserved) + FifoEngine.Picked(picks)
    decreases |picks|
  {
    if picks == [] {
    } else {
      var d := Shuffled(db, shuffles);
      ShuffledSame(db, shuffles);
      PickMoves(d, order, material, picks[0]);
      PicksMove(PickReserved(d, order, material, picks[0]).value, order, material, picks[1..], Later(shuffles));
    }
  }

  /** One reservation a pick, on the pick's batch, for just its quantity. */
  function ReservationsFor(order: ForOrder, material: Id, picks: seq<FifoEngine.Pick>): seq<Reservation> {
    if picks == [] then []
    else [NewReservation(InputFor(order, material, picks[0]), picks[0].row.key.lot.batch, order.now)]
         + ReservationsFor(order, material, picks[1..])
  }

  lemma {:induction false} PicksReserveEach(
      db: Db, order: ForOrder, material: Id, picks: seq<FifoEngine.Pick>, shuffles: Shuffles)
    requires PicksReserved(db, order, material, picks, shuffles).error.None?
    ensures PicksReserved(db, order, material, picks, shuffles).db.reservations
              == db.reservations + ReservationsFor(order, material, picks)
    decreases |picks|
  {
    if picks == [] {
    } else {
      var t := PickReserved(Shuffled(db, shuffles), order, material, picks[0]).value;
      var made := NewReservation(InputFor(order, material, picks[0]), picks[0].row.key.lot.batch, order.now);
      PicksReserveEach(t, order, material, picks[1..], Later(shuffles));
      Regroup(db.reservations, [made], ReservationsFor(order, material, picks[1..]));
    }
  }

  function QuantityOf(rs: seq<Reservation>): real {
    if rs == [] then 0.0 else rs[0].quantity + QuantityOf(rs[1..])
  }

  lemma {:induction false} ReservationsTotal(order: ForOrder, material: Id, picks: seq<FifoEngine.Pick>)
    ensures QuantityOf(ReservationsFor(order, material, picks)) == FifoEngine.Picked(picks)
  {
    if picks == [] {
    } else {
      ReservationsTotal(order, material, picks[1..]);
      assert ReservationsFor(order, material, picks)[1..] == ReservationsFor(order, material, picks[1..]);
    }
  }

  /** The shelf a suggestion for a line is computed from. */
  function ShelfOf(db: Db, order: ForOrder, material: Id): seq<Row> {
    FifoEngine.Shelf(db.stock, FifoEngine.UsesFefo(db.masters, order.company, material, order.fefoEnabled),
                     FifoEngine.StockOf(order.company, material, None, Available))
  }

  // ----- what is covered -----

  lemma {:induction false} TotalIsOnHand(rows: seq<Row>, w: Where)
    requires forall i | 0 <= i < |rows| :: w.Hits(rows[i].key)
    ensures FifoEngine.Total(rows) == OnHand(rows, w)
  {
    if rows == [] {
    } else {
      var n := |rows| - 1;
      TotalIsOnHand(rows[..n], w);
      FifoEngine.TotalSplit(rows[..n], [rows[n]]);
      assert rows == rows[..n] + [rows[n]];
    }
  }

  lemma {:induction false} HoldingIsOnHand(rows: seq<Row>, batches: nat, w: Where)
    requires Sound(rows, batches)
    ensures OnHand(FifoEngine.Holding(rows, w), w) == OnHand(rows, w)
  {
    if rows == [] {
    } else {
      var n := |rows| - 1;
      var front := FifoEngine.Holding(rows[..n], w);
      HoldingIsOnHand(rows[..n], batches, w);
      assert (front + [rows[n]])[..|front|] == front && front + [] == front;
    }
  }

  /** A suggestion covers exactly the quantities that are on hand, in any order of rows. */
  lemma CoveredIsOnHand(s: Stock, fefo: bool, w: Where, quantity: real)
    requires Agrees(s) && quantity >= 0.0
    ensures var suggestion := FifoEngine.Suggested(FifoEngine.Shelf(s, fefo, w), quantity);
            && (suggestion.fullyCovered <==> quantity <= OnHand(s.rows, w))
            && (suggestion.fullyCovered ==> FifoEngine.Picked(suggestion.picks) == quantity)
  {
    var shelf := FifoEngine.Shelf(s, fefo, w);
    FifoEngine.ShelfOrders(s, fefo, w);
    FifoEngine.SuggestionCovers(shelf, quantity);
    forall i | 0 <= i < |shelf|
      ensures w.Hits(shelf[i].key)
    {
      assert shelf[i] in shelf;
    }
    TotalIsOnHand(shelf, w);
    OnHandPermutes(shelf, FifoEngine.Holding(s.rows, w), w);
    HoldingIsOnHand(s.rows, |s.batches|, w);
  }

  /** What a line that did not fail has reserved: all of its quantity when that much is
      available, else nothing; so much the new reservations total, and so much went from
      available to reserved. */
  lemma WantMoves(db: Db, order: ForOrder, want: Want, shuffles: Shuffles)
    requires Core(db) && want.quantity >= 0.0 && WantReserved(db, order, want, shuffles).error.None?
    ensures var t := WantReserved(db, order, want, shuffles).db;
            var available := InStatus(db, order.company, want.material, Available);
            var reserved := if want.quantity <= available then want.quantity else 0.0;
            && db.reservations <= t.reservations
            && QuantityOf(t.reservations[|db.reservations|..]) == reserved
            && InStatus(t, order.company, want.material, Available) == available - reserved
            && InStatus(t, order.company, want.material, Reserved)
                == InStatus(db, order.company, want.material, Reserved) + reserved
  {
    var d := Shuffled(db, shuffles);
    var s := SuggestionFor(d, order, want);
    ShuffledSame(db, shuffles);
    CoveredIsOnHand(d.stock, FifoEngine.UsesFefo(d.masters, order.company, want.material, order.fefoEnabled),
                    FifoEngine.StockOf(order.company, want.material, None, Available), want.quantity);
    if s.fullyCovered {
      var made := ReservationsFor(order, want.material, s.picks);
      PicksMove(d, order, want.material, s.picks, Later(shuffles));
      PicksReserveEach(d, order, want.material, s.picks, Later(shuffles));
      ReservationsTotal(order, want.material, s.picks);
      assert (db.reservations + made)[|db.reservations|..] == made;
    }
  }

  // ----- rows that keep their order -----

  /** Available, positive rows of a company. */
  predicate OnShelf(r: Row, company: Id) {
    r.key.lot.company == company && r.key.status == Available && r.quantity > 0.0
  }

  predicate SamePlace(a: Row, b: Row) {
    a.key.lot == b.key.lot && a.key.warehouse == b.key.warehouse
  }

  /** Whatever stands in the table before a shelf's row, of its lot and in its warehouse,
      stands before it on the shelf too. */
  ghost predicate InTableOrder(rows: seq<Row>, company: Id, shelf: seq<Row>) {
    forall k, m, n | 0 <= k < |shelf| && 0 <= m < n < |rows| && rows[n] == shelf[k]
                     && OnShelf(rows[m], company) && SamePlace(rows[m], rows[n]) ::
      rows[m] in shelf[..k]
  }

  /** Picks not yet reserved: each on a row that is as it was when suggested. */
  ghost predicate StillPickable(rows: seq<Row>, company: Id, material: Id, picks: seq<FifoEngine.Pick>) {
    && (forall k | 0 <= k < |picks| ::
          picks[k].row in rows && OnShelf(picks[k].row, company) && picks[k].row.key.lot.material == material
              && 0.0 < picks[k].quantity <= picks[k].row.quantity)
    && (forall k, l | 0 <= k < l < |picks| :: picks[k].row.key != picks[l].row.key)
  }

  /** Every pick but the last empties its row, and whatever could be drawn on in a pick's
      stead is emptied by an earlier one. */
  ghost predicate NoneAhead(rows: seq<Row>, company: Id, picks: seq<FifoEngine.Pick>) {
    && (forall k | 0 <= k < |picks| - 1 :: picks[k].quantity == picks[k].row.quantity)
    && (forall k, m, n | 0 <= k < |picks| && 0 <= m < n < |rows| && rows[n] == picks[k].row
                         && OnShelf(rows[m], company) && SamePlace(rows[m], rows[n]) ::
          exists l | 0 <= l < k :: picks[l].row == rows[m])
  }

  /** All is in place for reserving the picks in order. */
  ghost predicate Ready(db: Db, order: ForOrder, material: Id, picks: seq<FifoEngine.Pick>) {
    && Core(db) && KnownMaterial(db.masters, order.company, material)
    && StillPickable(db.stock.rows, order.company, material, picks)
    && NoneAhead(db.stock.rows, order.company, picks)
  }

  /** Reserving the first pick draws on exactly the row it was suggested for. */
  lemma PickCreates(db: Db, order: ForOrder, material: Id, picks: seq<FifoEngine.Pick>)
    requires Ready(db, order, material, picks) && picks != []
    ensures var r := PickReserved(db, order, material, picks[0]);
            && r.Ok?
            && Rewrites(db.stock.rows, r.value.stock.rows, picks[0].row.key, picks[0].row.key.(status := Reserved),
                picks[0].quantity)
  {
    var pick := picks[0];
    var p := InputFor(order, material, pick);
    var n :| 0 <= n < |db.stock.rows| && db.stock.rows[n] == pick.row;
    var i := Find(db.stock.rows, OnBatch(p), Some(p.quantity));
    assert OnBatch(p).Hits(pick.row.key);
    assert i <= n;
    assert OnShelf(db.stock.rows[i], order.company) && SamePlace(db.stock.rows[i], pick.row);
    MoveSucceeds(db.stock, n, pick.row.key.(status := Reserved), pick.quantity, ReserveOut, ReserveIn);
  }

  lemma RestPickable(
      before: seq<Row>, after: seq<Row>, company: Id, material: Id, picks: seq<FifoEngine.Pick>)
    requires picks != [] && StillPickable(before, company, material, picks)
    requires Rewrites(before, after, picks[0].row.key, picks[0].row.key.(status := Reserved), picks[0].quantity)
    ensures StillPickable(after, company, material, picks[1..])
  {
    var rest := picks[1..];
    forall k | 0 <= k < |rest|
      ensures rest[k].row in after
    {
      assert rest[k] == picks[k + 1];
      var n :| 0 <= n < |before| && before[n] == rest[k].row;
      assert after[n] == before[n];
    }
  }

  /** A row that is still on the shelf is none the first pick emptied. */
  lemma RestStays(
      before: seq<Row>, after: seq<Row>, company: Id, material: Id, picks: seq<FifoEngine.Pick>,
      k: nat, m: nat, n: nat)
    requires picks != [] && StillPickable(before, company, material, picks) && NoneAhead(before, company, picks)
    requires DistinctKeys(before) && k < |picks[1..]| && m < n < |after| && after[n] == picks[1..][k].row
    requires Rewrites(before, after, picks[0].row.key, picks[0].row.key.(status := Reserved), picks[0].quantity)
    requires OnShelf(after[m], company)
    ensures n < |before| && after[n] == before[n] == picks[k + 1].row
    ensures after[m] == before[m] != picks[0].row
  {
    assert picks[1..][k] == picks[k + 1] && OnShelf(picks[k + 1].row, company);
    var o :| 0 <= o < |before| && before[o] == picks[0].row;
    assert after[o].quantity == 0.0;
  }

  lemma RestNoneAhead(before: seq<Row>, after: seq<Row>, company: Id, material: Id, picks: seq<FifoEngine.Pick>)
    requires picks != [] && StillPickable(before, company, material, picks) && NoneAhead(before, company, picks)
    requires DistinctKeys(before)
    requires Rewrites(before, after, picks[0].row.key, picks[0].row.key.(status := Reserved), picks[0].quantity)
    ensures NoneAhead(after, company, picks[1..])
  {
    var rest := picks[1..];
    forall k, m, n | 0 <= k < |rest| && 0 <= m < n < |after| && after[n] == rest[k].row
                     && OnShelf(after[m], company) && SamePlace(after[m], after[n])
      ensures exists l | 0 <= l < k :: rest[l].row == after[m]
    {
      RestStays(before, after, company, material, picks, k, m, n);
      var l :| 0 <= l < k + 1 && picks[l].row == before[m];
      assert rest[l - 1] == picks[l];
    }
  }

  lemma PickLeavesReady(db: Db, order: ForOrder, material: Id, picks: seq<FifoEngine.Pick>)
    requires Ready(db, order, material, picks) && picks != []
    ensures var r := PickReserved(db, order, material, picks[0]);
            r.Ok? && Ready(r.value, order, material, picks[1..])
  {
    PickCreates(db, order, material, picks);
    PickMoves(db, order, material, picks[0]);
    var t := PickReserved(db, order, material, picks[0]).value;
    RestPickable(db.stock.rows, t.stock.rows, order.company, material, picks);
    RestNoneAhead(db.stock.rows, t.stock.rows, order.company, material, picks);
  }

  /** Reserving the picks in order never fails. */
  lemma {:induction false} PicksReserveExactly(db: Db, order: ForOrder, material: Id, picks: seq<FifoEngine.Pick>)
    requires Ready(db, order, material, picks)
    ensures PicksReserved(db, order, material, picks, []).error.None?
    decreases |picks|
  {
    if picks == [] {
    } else {
      PickLeavesReady(db, order, material, picks);
      PicksReserveExactly(PickReserved(db, order, material, picks[0]).value, order, material, picks[1..]);
    }
  }

  /** Rows a suggestion may be computed from: some available positive rows of the
      material, each once, in whatever order the database breaks ties. */
  ghost predicate IsShelf(db: Db, company: Id, material: Id, shelf: seq<Row>) {
    && (forall i | 0 <= i < |shelf| ::
          shelf[i] in db.stock.rows && OnShelf(shelf[i], company) && shelf[i].key.lot.material == material)
    && DistinctKeys(shelf)
  }

  lemma PicksNoneAhead(rows: seq<Row>, company: Id, shelf: seq<Row>, quantity: real)
    requires FifoEngine.Positive(shelf) && quantity >= 0.0 && InTableOrder(rows, company, shelf)
    ensures NoneAhead(rows, company, FifoEngine.Picks(shelf, quantity))
  {
    var picks := FifoEngine.Picks(shelf, quantity);
    FifoEngine.PicksTakeMinimum(shelf, quantity);
    forall k | 0 <= k < |picks| - 1
      ensures picks[k].quantity == picks[k].row.quantity
    {
      FifoEngine.PicksEmptyRows(shelf, quantity, k);
    }
    forall k, m, n | 0 <= k < |picks| && 0 <= m < n < |rows| && rows[n] == picks[k].row
                     && OnShelf(rows[m], company) && SamePlace(rows[m], rows[n])
      ensures exists l | 0 <= l < k :: picks[l].row == rows[m]
    {
      assert rows[n] == shelf[k];
      var l :| 0 <= l < k && shelf[..k][l] == rows[m];
      assert picks[l].row == shelf[l];
    }
  }

  /** With rows of one lot and warehouse suggested as they stand in the table, and nothing
      shuffled since, a covered suggestion reserves completely. */
  lemma ShelfReserves(db: Db, order: ForOrder, material: Id, shelf: seq<Row>, quantity: real)
    requires Core(db) && KnownMaterial(db.masters, order.company, material)
    requires IsShelf(db, order.company, material, shelf) && InTableOrder(db.stock.rows, order.company, shelf)
    requires quantity >= 0.0 && FifoEngine.Suggested(shelf, quantity).fullyCovered
    ensures var picks := FifoEngine.Suggested(shelf, quantity).picks;
            PicksReserved(db, order, material, picks, []).error.None?
  {
    var picks := FifoEngine.Suggested(shelf, quantity).picks;
    FifoEngine.PicksTakeMinimum(shelf, quantity);
    assert StillPickable(db.stock.rows, order.company, material, picks);
    PicksNoneAhead(db.stock.rows, order.company, shelf, quantity);
    PicksReserveExactly(db, order, material, picks);
  }

  /** The rows a suggestion is actually computed from are such a shelf: sorting keeps
      rows of one batch as they stand in the table. */
  lemma SuggestionIsShelf(db: Db, order: ForOrder, material: Id)
    requires Agrees(db.stock)
    ensures var shelf := ShelfOf(db, order, material);
            IsShelf(db, order.company, material, shelf) && InTableOrder(db.stock.rows, order.company, shelf)
  {
    var fefo := FifoEngine.UsesFefo(db.masters, order.company, material, order.fefoEnabled);
    var w := FifoEngine.StockOf(order.company, material, None, Available);
    var holding := FifoEngine.Holding(db.stock.rows, w);
    var shelf := FifoEngine.Shelf(db.stock, fefo, w);
    FifoEngine.ShelfOrders(db.stock, fefo, w);
    FifoEngine.HoldingSelects(db.stock.rows, w);
    DistinctUnderOrder(holding, shelf);
    forall i | 0 <= i < |shelf|
      ensures shelf[i] in db.stock.rows && OnShelf(shelf[i], order.company) && shelf[i].key.lot.material == material
    {
      assert shelf[i] in shelf;
    }
    forall k, m, n | 0 <= k < |shelf| && 0 <= m < n < |db.stock.rows| && db.stock.rows[n] == shelf[k]
                     && OnShelf(db.stock.rows[m], order.company) && SamePlace(db.stock.rows[m], db.stock.rows[n])
      ensures db.stock.rows[m] in shelf[..k]
    {
      FifoEngine.ShelfKeepsOrder(db.stock, fefo, w, m, n);
      var i, j :| 0 <= i < j < |shelf| && shelf[i] == db.stock.rows[m] && shelf[j] == db.stock.rows[n];
      assert j == k;
      assert shelf[..k][i] == shelf[i];
    }
  }

  /** The order of rows may change before the line's suggestion, but not from then on. */
  predicate Steady(shuffles: Shuffles) {
    |shuffles| <= 1
  }

  /** If rows keep their order from the suggestion to the last pick, no line fails. */
  lemma WantReservesInOrder(db: Db, order: ForOrder, want: Want, shuffles: Shuffles)
    requires Core(db) && KnownMaterial(db.masters, order.company, want.material) && Steady(shuffles)
    ensures WantReserved(db, order, want, shuffles).error.None?
  {
    var d := Shuffled(db, shuffles);
    var shelf := ShelfOf(d, order, want.material);
    ShuffledSame(db, shuffles);
    SuggestionIsShelf(d, order, want.material);
    assert Later(shuffles) == [];
    if want.quantity <= 0.0 {
      assert SuggestionFor(d, order, want).picks == [];
    } else if SuggestionFor(d, order, want).fullyCovered {
      ShelfReserves(d, order, want.material, shelf, want.quantity);
    }
  }

  lemma {:induction false} WantsReserveInOrder(db: Db, order: ForOrder, wants: seq<Want>, shuffles: seq<Shuffles>)
    requires Core(db) && forall i | 0 <= i < |shuffles| :: Steady(shuffles[i])
    requires forall i | 0 <= i < |wants| :: KnownMaterial(db.masters, order.company, wants[i].material)
    ensures WantsReserved(db, order, wants, shuffles).error.None?
    decreases |wants|
  {
    if wants == [] {
    } else {
      WantReservesInOrder(db, order, wants[0], Next(shuffles));
      WantReservedKeeps(db, order, wants[0], Next(shuffles));
      WantReservedFrame(db, order, wants[0], Next(shuffles));
      WantsReserveInOrder(WantReserved(db, order, wants[0], Next(shuffles)).db, order, wants[1..], Later(shuffles));
    }
  }
}
