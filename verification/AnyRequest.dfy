/** When no request fails half-way, in any order. */
module AnyRequest {
  import opened Base
  import opened Tables
  import opened StockEngine
  import opened ReservationEngine
  import opened Invariants
  import opened Production
  import opened ProductionLaws
  import opened AutoReserve
  import opened AnyOrder
  import FifoEngine

  // ----- whole requests -----

  lemma SingleIsEven(rows: seq<Row>, company: Id, material: Id)
    requires Single(rows, company, material)
    ensures Even(rows, company, material)
  {
  }

  lemma DrawsSingle(before: seq<Row>, after: seq<Row>, i: nat, quantity: real, company: Id, material: Id)
    requires Draws(before, after, i, quantity) && Single(before, company, material)
    ensures Single(after, company, material)
  {
    forall a, b | a in after && b in after && OnShelfOf(a, company, material) && OnShelfOf(b, company, material)
                  && SamePlace(a, b)
      ensures a == b
    {
      var k :| 0 <= k < |after| && after[k] == a;
      var l :| 0 <= l < |after| && after[l] == b;
      WasOnShelf(before, after, i, quantity, k, company, material);
      WasOnShelf(before, after, i, quantity, l, company, material);
      assert before[k] == before[l];
      assert k == l;
    }
  }

  lemma WasOnShelf(
      before: seq<Row>, after: seq<Row>, i: nat, quantity: real, k: nat, company: Id, material: Id)
    requires Draws(before, after, i, quantity) && k < |after| && OnShelfOf(after[k], company, material)
    ensures k < |before| && before[k].key == after[k].key && before[k] in before
    ensures OnShelfOf(before[k], company, material)
  {
    if k != i {
      DrawsFit(before, after, i, quantity, k, after[k], after[k].quantity);
    }
  }

  lemma {:induction false} PicksKeepSingle(
      db: Db, order: ForOrder, material: Id, picks: seq<FifoEngine.Pick>, shuffles: Shuffles, other: Id)
    requires Core(db) && KnownMaterial(db.masters, order.company, material)
    requires PicksOf(picks, order.company, material) && Single(db.stock.rows, order.company, other)
    ensures Single(PicksReserved(db, order, material, picks, shuffles).db.stock.rows, order.company, other)
    decreases |picks|
  {
    if picks == [] {
    } else {
      var d := Shuffled(db, shuffles);
      ShuffledSame(db, shuffles);
      ShuffledElements(db, shuffles);
      var i := PickDraws(d, order, material, picks[0]);
      if PickReserved(d, order, material, picks[0]).Ok? {
        var t := PickReserved(d, order, material, picks[0]).value;
        DrawsSingle(d.stock.rows, t.stock.rows, i, picks[0].quantity, order.company, other);
        PicksKeepSingle(t, order, material, picks[1..], Later(shuffles), other);
      }
    }
  }

  lemma WantKeepsSingle(db: Db, order: ForOrder, want: Want, shuffles: Shuffles, other: Id)
    requires Core(db) && KnownMaterial(db.masters, order.company, want.material)
    requires Single(db.stock.rows, order.company, other)
    ensures Single(WantReserved(db, order, want, shuffles).db.stock.rows, order.company, other)
  {
    var d := Shuffled(db, shuffles);
    ShuffledSame(db, shuffles);
    ShuffledElements(db, shuffles);
    SuggestedPicks(d, order, want.material, want.quantity);
    PicksKeepSingle(d, order, want.material, SuggestionFor(d, order, want).picks, Later(shuffles), other);
  }

  /** With one available row a batch and warehouse of each material wanted, no line fails. */
  lemma {:induction false} WantsReserveFully(db: Db, order: ForOrder, wants: seq<Want>, shuffles: seq<Shuffles>)
    requires Core(db)
    requires forall i | 0 <= i < |wants| :: KnownMaterial(db.masters, order.company, wants[i].material)
                                           && Single(db.stock.rows, order.company, wants[i].material)
    ensures WantsReserved(db, order, wants, shuffles).error.None?
    decreases |wants|
  {
    if wants == [] {
    } else {
      var t := WantReserved(db, order, wants[0], Next(shuffles)).db;
      SingleIsEven(db.stock.rows, order.company, wants[0].material);
      EvenNeverFails(db, order, wants[0], Next(shuffles));
      WantReservedKeeps(db, order, wants[0], Next(shuffles));
      WantReservedFrame(db, order, wants[0], Next(shuffles));
      forall i | 0 <= i < |wants[1..]|
        ensures KnownMaterial(t.masters, order.company, wants[1..][i].material)
        ensures Single(t.stock.rows, order.company, wants[1..][i].material)
      {
        assert wants[1..][i] == wants[i + 1];
        WantKeepsSingle(db, order, wants[0], Next(shuffles), wants[i + 1].material);
      }
      WantsReserveFully(t, order, wants[1..], Later(shuffles));
    }
  }

  /** So of every known material of the company. */
  ghost predicate SingleEach(db: Db, company: Id) {
    forall material | KnownMaterial(db.masters, company, material) :: Single(db.stock.rows, company, material)
  }

  // ----- two lines for one material -----

  /** Asking for the rows before the i-th and part of it picks just that. */
  lemma {:induction false} PartPicked(shelf: seq<Row>, i: nat, part: real)
    requires FifoEngine.Positive(shelf) && i < |shelf| && 0.0 < part <= shelf[i].quantity
    ensures var picks := FifoEngine.Picks(shelf, FifoEngine.Total(shelf[..i]) + part);
            && |picks| == i + 1 && picks[i].quantity == part
            && (forall k | 0 <= k <= i :: picks[k].row == shelf[k])
            && FifoEngine.Left(shelf, FifoEngine.Total(shelf[..i]) + part) <= 0.0
  {
    FifoEngine.TotalMonotone(shelf, 0, i);
    if i == 0 {
    } else {
      PartPicked(shelf[1..], i - 1, part);
      FifoEngine.TotalMonotone(shelf[1..], 0, i - 1);
      assert shelf[..i][1..] == shelf[1..][..i - 1];
    }
  }

  /** Every row of the place that holds something holds `size`. */
  ghost predicate AllOf(rows: seq<Row>, place: Row, size: real) {
    forall k | 0 <= k < |rows| && SamePlace(rows[k], place) && rows[k].key.status == Available
               && rows[k].quantity > 0.0 ::
      rows[k].quantity == size
  }

  /** A part drawn from one of two equal rows leaves the place uneven. */
  lemma PartUnevens(
      before: seq<Row>, after: seq<Row>, i: nat, part: real, place: Row, size: real, company: Id, material: Id)
    requires Draws(before, after, i, part) && 0.0 < part < size && Fits(before[i], place, part)
    requires AllOf(before, place, size) && Count(before, place, size) >= 2
    requires place.key.lot.company == company && place.key.lot.material == material
    ensures !Even(after, company, material)
  {
    DrawsCount(before, after, i, part, place, size);
    var k := CountSome(after, place, size);
    assert before[i].quantity == size && after[i].quantity == size - part;
    assert after[i] in after && after[k] in after;
    assert SamePlace(after[i], after[k]) && OnShelfOf(after[i], company, material)
        && OnShelfOf(after[k], company, material);
  }

  lemma StepOfPicks(db: Db, order: ForOrder, material: Id, picks: seq<FifoEngine.Pick>) returns (i: nat, t: Db)
    requires Core(db) && KnownMaterial(db.masters, order.company, material) && picks != []
    requires PicksOf(picks, order.company, material) && PicksReserved(db, order, material, picks, []).error.None?
    ensures Core(t) && t.masters == db.masters && PickReserved(db, order, material, picks[0]) == Ok(t)
    ensures PicksReserved(db, order, material, picks, []) == PicksReserved(t, order, material, picks[1..], [])
    ensures Draws(db.stock.rows, t.stock.rows, i, picks[0].quantity)
    ensures Fits(db.stock.rows[i], picks[0].row, picks[0].quantity)
  {
    i := PickDraws(db, order, material, picks[0]);
    t := PickReserved(db, order, material, picks[0]).value;
  }

  /** The picks end with a part of a row at the place, and none before is drawn there. */
  ghost predicate EndsInPart(picks: seq<FifoEngine.Pick>, place: Row, size: real) {
    && picks != [] && picks[|picks| - 1].row == place && picks[|picks| - 1].quantity < size
    && forall k | 0 <= k < |picks| - 1 :: !SamePlace(picks[k].row, place)
  }

  /** The place has two rows or more, each of the size. */
  ghost predicate TwoOf(rows: seq<Row>, place: Row, size: real) {
    AllOf(rows, place, size) && Count(rows, place, size) >= 2
  }

  lemma OtherPickKeepsTwo(
      db: Db, order: ForOrder, material: Id, picks: seq<FifoEngine.Pick>, place: Row, size: real) returns (t: Db)
    requires Core(db) && KnownMaterial(db.masters, order.company, material)
    requires PicksOf(picks, order.company, material) && PicksReserved(db, order, material, picks, []).error.None?
    requires |picks| > 1 && EndsInPart(picks, place, size) && TwoOf(db.stock.rows, place, size)
    ensures Core(t) && t.masters == db.masters && TwoOf(t.stock.rows, place, size)
    ensures PicksReserved(db, order, material, picks, []) == PicksReserved(t, order, material, picks[1..], [])
  {
    var i;
    i, t := StepOfPicks(db, order, material, picks);
    DrawsCount(db.stock.rows, t.stock.rows, i, picks[0].quantity, place, size);
    DrawsElsewhere(db.stock.rows, t.stock.rows, i, picks[0].quantity, place, size);
  }

  lemma LastPickUnevens(
      db: Db, order: ForOrder, material: Id, picks: seq<FifoEngine.Pick>, place: Row, size: real)
    requires Core(db) && KnownMaterial(db.masters, order.company, material)
    requires PicksOf(picks, order.company, material) && PicksReserved(db, order, material, picks, []).error.None?
    requires |picks| == 1 && EndsInPart(picks, place, size) && TwoOf(db.stock.rows, place, size)
    ensures !Even(PicksReserved(db, order, material, picks, []).db.stock.rows, order.company, material)
  {
    var i, t := StepOfPicks(db, order, material, picks);
    assert PicksReserved(t, order, material, picks[1..], []).db == t;
    assert PickOf(picks[0], order.company, material);
    PartUnevens(db.stock.rows, t.stock.rows, i, picks[0].quantity, place, size, order.company, material);
  }

  lemma {:induction false} PartUnevensPlace(
      db: Db, order: ForOrder, material: Id, picks: seq<FifoEngine.Pick>, place: Row, size: real)
    requires Core(db) && KnownMaterial(db.masters, order.company, material)
    requires PicksOf(picks, order.company, material) && PicksReserved(db, order, material, picks, []).error.None?
    requires EndsInPart(picks, place, size) && TwoOf(db.stock.rows, place, size)
    ensures !Even(PicksReserved(db, order, material, picks, []).db.stock.rows, order.company, material)
    decreases |picks|
  {
    if |picks| == 1 {
      LastPickUnevens(db, order, material, picks, place, size);
    } else {
      var t := OtherPickKeepsTwo(db, order, material, picks, place, size);
      RestEndsInPart(picks, place, size, order.company, material);
      PartUnevensPlace(t, order, material, picks[1..], place, size);
    }
  }

  lemma RestEndsInPart(picks: seq<FifoEngine.Pick>, place: Row, size: real, company: Id, material: Id)
    requires |picks| > 1 && EndsInPart(picks, place, size) && PicksOf(picks, company, material)
    ensures EndsInPart(picks[1..], place, size) && PicksOf(picks[1..], company, material)
  {
    assert forall k | 0 <= k < |picks[1..]| :: picks[1..][k] == picks[k + 1];
  }

  lemma DrawsElsewhere(before: seq<Row>, after: seq<Row>, i: nat, quantity: real, place: Row, size: real)
    requires Draws(before, after, i, quantity) && !SamePlace(before[i], place) && AllOf(before, place, size)
    ensures AllOf(after, place, size)
  {
    forall k | 0 <= k < |after| && SamePlace(after[k], place) && after[k].key.status == Available
               && after[k].quantity > 0.0
      ensures after[k].quantity == size
    {
      DrawsFit(before, after, i, quantity, k, place, after[k].quantity);
      assert after[k] == before[k];
    }
  }

  lemma {:induction false} CountTwo(rows: seq<Row>, place: Row, least: real, m: nat, n: nat)
    requires m < n < |rows| && Fits(rows[m], place, least) && Fits(rows[n], place, least)
    ensures Count(rows, place, least) >= 2
  {
    if m == 0 {
      CountOne(rows[1..], place, least, n - 1);
    } else {
      CountTwo(rows[1..], place, least, m - 1, n - 1);
    }
  }

  lemma {:induction false} CountOne(rows: seq<Row>, place: Row, least: real, n: nat)
    requires n < |rows| && Fits(rows[n], place, least)
    ensures Count(rows, place, least) >= 1
  {
    if n == 0 {
    } else {
      CountOne(rows[1..], place, least, n - 1);
    }
  }

  lemma TwoRows(rows: seq<Row>, company: Id, material: Id, a: Row, b: Row, place: Row)
    requires Even(rows, company, material) && a in rows && b in rows && a != b && place in rows
    requires OnShelfOf(a, company, material) && OnShelfOf(b, company, material) && OnShelfOf(place, company, material)
    requires SamePlace(a, place) && SamePlace(b, place)
    ensures Count(rows, place, place.quantity) >= 2
  {
    var m :| 0 <= m < |rows| && rows[m] == a;
    var n :| 0 <= n < |rows| && rows[n] == b;
    CountTwo(rows, place, place.quantity, if m < n then m else n, if m < n then n else m);
  }

  /** Two equal rows of a place become uneven when a line takes part of one. */
  lemma FirstLineUnevens(db: Db, order: ForOrder, material: Id) returns (quantity: real)
    requires Core(db) && KnownMaterial(db.masters, order.company, material)
    requires Even(db.stock.rows, order.company, material) && !Single(db.stock.rows, order.company, material)
    ensures quantity > 0.0
    ensures var a := WantReserved(db, order, Want(material, quantity), []);
            a.error.None? && !Even(a.db.stock.rows, order.company, material)
  {
    var a, b :| a in db.stock.rows && b in db.stock.rows && OnShelfOf(a, order.company, material)
      && OnShelfOf(b, order.company, material) && SamePlace(a, b) && a != b;
    var i := FirstOfPlace(db, order, material, a);
    var place := ShelfOf(db, order, material)[i];
    TwoRows(db.stock.rows, order.company, material, a, b, place);
    quantity := PartOfPlace(db, order, material, place, i);
  }

  lemma FirstOfPlace(db: Db, order: ForOrder, material: Id, a: Row) returns (i: nat)
    requires a in db.stock.rows && OnShelfOf(a, order.company, material)
    ensures var shelf := ShelfOf(db, order, material);
            && i < |shelf| && SamePlace(shelf[i], a) && shelf[i] in db.stock.rows
            && OnShelfOf(shelf[i], order.company, material)
            && forall l | 0 <= l < i :: !SamePlace(shelf[l], shelf[i])
  {
    var shelf := ShelfOf(db, order, material);
    ShelfRows(db, order, material);
    var s :| 0 <= s < |shelf| && shelf[s] == a;
    i := FirstAt(shelf, a, s);
    assert shelf[i] in shelf;
  }

  lemma PartOfPlace(db: Db, order: ForOrder, material: Id, place: Row, i: nat) returns (quantity: real)
    requires Core(db) && KnownMaterial(db.masters, order.company, material)
    requires Even(db.stock.rows, order.company, material)
    requires place in db.stock.rows && OnShelfOf(place, order.company, material)
    requires Count(db.stock.rows, place, place.quantity) >= 2
    requires var shelf := ShelfOf(db, order, material);
             i < |shelf| && shelf[i] == place && forall l | 0 <= l < i :: !SamePlace(shelf[l], place)
    ensures quantity > 0.0
    ensures var a := WantReserved(db, order, Want(material, quantity), []);
            a.error.None? && !Even(a.db.stock.rows, order.company, material)
  {
    var picks;
    quantity, picks := PartSuggested(db, order, material, i, place.quantity / 2.0);
    EvenNeverFails(db, order, Want(material, quantity), []);
    assert Shuffled(db, []) == db && Later<seq<Row>>([]) == [];
    EvenIsAllOf(db.stock.rows, order.company, material, place);
    PartUnevensPlace(db, order, material, picks, place, place.quantity);
  }

  lemma PartSuggested(db: Db, order: ForOrder, material: Id, i: nat, part: real)
    returns (quantity: real, picks: seq<FifoEngine.Pick>)
    requires i < |ShelfOf(db, order, material)| && 0.0 < part <= ShelfOf(db, order, material)[i].quantity
    ensures quantity > 0.0 && PicksOf(picks, order.company, material)
    ensures SuggestionFor(db, order, Want(material, quantity)) == FifoEngine.Suggestion(picks, 0.0, true)
    ensures |picks| == i + 1 && picks[i].quantity == part
    ensures forall k | 0 <= k <= i :: picks[k].row == ShelfOf(db, order, material)[k]
  {
    var shelf := ShelfOf(db, order, material);
    ShelfRows(db, order, material);
    FifoEngine.TotalMonotone(shelf, 0, i);
    PartPicked(shelf, i, part);
    quantity := FifoEngine.Total(shelf[..i]) + part;
    picks := FifoEngine.Picks(shelf, quantity);
    SuggestedPicks(db, order, material, quantity);
  }

  lemma EvenIsAllOf(rows: seq<Row>, company: Id, material: Id, place: Row)
    requires Even(rows, company, material) && place in rows && OnShelfOf(place, company, material)
    ensures AllOf(rows, place, place.quantity)
  {
    forall k | 0 <= k < |rows| && SamePlace(rows[k], place) && rows[k].key.status == Available
               && rows[k].quantity > 0.0
      ensures rows[k].quantity == place.quantity
    {
      assert rows[k] in rows;
    }
  }

  /** Where a batch has two available rows in a warehouse, a request of one line or two
      fails half-way in some order of answers. */
  lemma NotSingleFails(db: Db, order: ForOrder, material: Id) returns (wants: seq<Want>, shuffles: seq<Shuffles>)
    requires Core(db) && KnownMaterial(db.masters, order.company, material)
    requires !Single(db.stock.rows, order.company, material)
    ensures wants != [] && WantsReserved(db, order, wants, shuffles).error.Some?
    ensures forall i | 0 <= i < |wants| :: wants[i].material == material && wants[i].quantity > 0.0
  {
    if Even(db.stock.rows, order.company, material) {
      var first := FirstLineUnevens(db, order, material);
      var line := Want(material, first);
      var t := WantReserved(db, order, line, []).db;
      WantReservedKeeps(db, order, line, []);
      WantReservedFrame(db, order, line, []);
      var second, orders := UnevenFails(t, order, material);
      wants, shuffles := [line, Want(material, second)], [[], orders];
      assert wants[1..] == [Want(material, second)] && Later(shuffles) == [orders];
      OneLine(t, order, Want(material, second), orders);
    } else {
      var quantity, orders := UnevenFails(db, order, material);
      wants, shuffles := [Want(material, quantity)], [orders];
      OneLine(db, order, Want(material, quantity), orders);
    }
  }

  lemma OneLine(db: Db, order: ForOrder, want: Want, shuffles: Shuffles)
    requires WantReserved(db, order, want, shuffles).error.Some?
    ensures WantsReserved(db, order, [want], [shuffles]) == WantReserved(db, order, want, shuffles)
  {
  }

  // ----- requests do not matter to reservations -----

  function WithRequests(db: Db, requests: seq<Request>, lines: seq<RequestLine>): Db {
    db.(requests := requests, requestLines := lines)
  }

  lemma {:induction false} PicksIgnoreRequests(
      db: Db, order: ForOrder, material: Id, picks: seq<FifoEngine.Pick>, shuffles: Shuffles,
      requests: seq<Request>, lines: seq<RequestLine>)
    ensures var a := PicksReserved(db, order, material, picks, shuffles);
            PicksReserved(WithRequests(db, requests, lines), order, material, picks, shuffles)
              == Attempt(WithRequests(a.db, requests, lines), a.error)
    decreases |picks|
  {
    if picks == [] {
    } else {
      var d := Shuffled(db, shuffles);
      assert Shuffled(WithRequests(db, requests, lines), shuffles) == WithRequests(d, requests, lines);
      PickIgnoresRequests(d, order, material, picks[0], requests, lines);
      if PickReserved(d, order, material, picks[0]).Ok? {
        PicksIgnoreRequests(PickReserved(d, order, material, picks[0]).value, order, material, picks[1..],
            Later(shuffles), requests, lines);
      }
    }
  }

  lemma PickIgnoresRequests(
      db: Db, order: ForOrder, material: Id, pick: FifoEngine.Pick, requests: seq<Request>, lines: seq<RequestLine>)
    ensures var r := PickReserved(db, order, material, pick);
            PickReserved(WithRequests(db, requests, lines), order, material, pick)
              == if r.Ok? then Ok(WithRequests(r.value, requests, lines)) else r
  {
  }

  lemma {:induction false} WantsIgnoreRequests(
      db: Db, order: ForOrder, wants: seq<Want>, shuffles: seq<Shuffles>, requests: seq<Request>,
      lines: seq<RequestLine>)
    ensures WantsReserved(WithRequests(db, requests, lines), order, wants, shuffles).error
              == WantsReserved(db, order, wants, shuffles).error
    decreases |wants|
  {
    if wants == [] {
    } else {
      var d := Shuffled(db, Next(shuffles));
      var a := WantReserved(db, order, wants[0], Next(shuffles));
      assert Shuffled(WithRequests(db, requests, lines), Next(shuffles)) == WithRequests(d, requests, lines);
      PicksIgnoreRequests(d, order, wants[0].material, SuggestionFor(d, order, wants[0]).picks,
          Later(Next(shuffles)), requests, lines);
      assert WantReserved(WithRequests(db, requests, lines), order, wants[0], Next(shuffles))
          == Attempt(WithRequests(a.db, requests, lines), a.error);
      WantsIgnoreRequests(a.db, order, wants[1..], Later(shuffles), requests, lines);
    }
  }

  /** Material requests fail only when they are refused before anything is written,
      whatever they want and in whatever order the database answers, exactly when each
      batch has at most one available row a warehouse. */
  lemma RequestsFailOnlyRefusedExactlyWhen(
      db: Db, company: Id, productionOrder: Option<Id>, fefoEnabled: bool, now: int)
    requires Core(db) && (productionOrder.Some? ==> KnownOrder(db.masters, company, productionOrder.value))
    ensures (forall wants, shuffles ::
               RequestCreated(db, company, productionOrder, wants, fefoEnabled, now, shuffles).error
                 == RequestRefusal(db, company, productionOrder, wants))
            <==> SingleEach(db, company)
  {
    var order := OrderFor(db, company, productionOrder, fefoEnabled, now);
    if SingleEach(db, company) {
      forall wants, shuffles
        ensures RequestCreated(db, company, productionOrder, wants, fefoEnabled, now, shuffles).error
                == RequestRefusal(db, company, productionOrder, wants)
      {
        RequestFailsOnlyRefused(db, company, productionOrder, wants, fefoEnabled, now, shuffles);
      }
    } else {
      var material :| KnownMaterial(db.masters, company, material) && !Single(db.stock.rows, company, material);
      var wants, shuffles := RequestFails(db, company, productionOrder, fefoEnabled, now, material);
    }
  }

  lemma RequestFailsOnlyRefused(
      db: Db, company: Id, productionOrder: Option<Id>, wants: seq<Want>, fefoEnabled: bool, now: int,
      shuffles: seq<Shuffles>)
    requires Core(db) && SingleEach(db, company)
    ensures RequestCreated(db, company, productionOrder, wants, fefoEnabled, now, shuffles).error
              == RequestRefusal(db, company, productionOrder, wants)
  {
    if RequestRefusal(db, company, productionOrder, wants).None? {
      RequestOpenedKeeps(db, company, productionOrder, wants);
      WantsReserveFully(RequestOpened(db, company, productionOrder, wants),
                        OrderFor(db, company, productionOrder, fefoEnabled, now), wants, shuffles);
    }
  }

  lemma RequestFails(
      db: Db, company: Id, productionOrder: Option<Id>, fefoEnabled: bool, now: int, material: Id)
    returns (wants: seq<Want>, shuffles: seq<Shuffles>)
    requires Core(db) && (productionOrder.Some? ==> KnownOrder(db.masters, company, productionOrder.value))
    requires KnownMaterial(db.masters, company, material) && !Single(db.stock.rows, company, material)
    ensures RequestRefusal(db, company, productionOrder, wants).None?
    ensures RequestCreated(db, company, productionOrder, wants, fefoEnabled, now, shuffles).error.Some?
  {
    var order := OrderFor(db, company, productionOrder, fefoEnabled, now);
    wants, shuffles := NotSingleFails(db, order, material);
    var t := RequestOpened(db, company, productionOrder, wants);
    WantsIgnoreRequests(db, order, wants, shuffles, t.requests, t.requestLines);
  }

  /** An explosion into materials of the company fails only when it is refused before
      anything is written, if each batch has at most one available row a warehouse. */
  lemma ExplosionFailsOnlyRefused(
      db: Db, company: Id, bom: Id, productionOrder: Id, quantity: real, fefoEnabled: bool, now: int,
      shuffles: seq<Shuffles>)
    requires Core(db) && SingleEach(db, company)
    requires bom in db.masters.boms ==> forall i | 0 <= i < |db.masters.boms[bom].lines| ::
               KnownMaterial(db.masters, company, db.masters.boms[bom].lines[i].component)
    ensures BomExploded(db, company, bom, productionOrder, quantity, fefoEnabled, now, shuffles).error
              == ExplodeRefusal(db, company, bom, productionOrder, quantity)
  {
    if ExplodeRefusal(db, company, bom, productionOrder, quantity).None? {
      var wants := Exploded(db.masters.boms[bom], quantity);
      RequestOpenedKeeps(db, company, Some(productionOrder), wants);
      WantsReserveFully(RequestOpened(db, company, Some(productionOrder), wants),
                        OrderFor(db, company, Some(productionOrder), fefoEnabled, now), wants, shuffles);
    }
  }
}
