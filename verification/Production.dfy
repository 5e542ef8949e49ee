/** Material requests with automatic reservation, BOM explosion, and finished goods. */
module Production {
  import opened Base
  import opened Tables
  import opened StockEngine
  import opened ReservationEngine
  import FifoEngine

  datatype Want = Want(material: Id, quantity: real)

  /** What every reservation of one request shares. */
  datatype ForOrder = ForOrder(company: Id, productionOrder: Option<Id>, priority: Option<int>, fefoEnabled: bool,
      now: int)

  /** Reservations are made one by one, outside any common transaction: a failure
      leaves the earlier ones in place. */
  datatype Attempt = Attempt(db: Db, error: Option<Error>)

  // ----- the order of answers -----

  /** The code asks for no order among rows of one batch, and every reservation is a
      transaction of its own: the database may hold its rows in another order at each
      query of a request. Here are those orders, the one for the next query first; where
      none is left, or one is not an order of the rows, they stay as they are. */
  type Shuffles = seq<seq<Row>>

  function Shuffled(db: Db, shuffles: Shuffles): Db {
    if shuffles != [] && multiset(shuffles[0]) == multiset(db.stock.rows)
    then db.(stock := db.stock.(rows := shuffles[0])) else db
  }

  function Later<T>(xs: seq<T>): (rest: seq<T>)
    ensures |rest| <= |xs|
  {
    if xs == [] then [] else xs[1..]
  }

  function Next(shuffles: seq<Shuffles>): Shuffles {
    if shuffles == [] then [] else shuffles[0]
  }

  method Shuffle(db: Database, shuffles: Shuffles)
    modifies db`rows
    ensures db.State() == Shuffled(old(db.State()), shuffles)
  {
    if shuffles != [] && multiset(shuffles[0]) == multiset(db.rows) {
      db.rows := shuffles[0];
    }
  }

  // ----- automatic reservation -----

  function InputFor(order: ForOrder, material: Id, pick: FifoEngine.Pick): ReserveInput {
    ReserveInput(order.company, material, pick.quantity, order.productionOrder, order.priority,
                 Some(pick.row.key.lot.batch), Some(pick.row.key.warehouse))
  }

  function PickReserved(db: Db, order: ForOrder, material: Id, pick: FifoEngine.Pick): Result<Db> {
    Created(db, InputFor(order, material, pick), order.fefoEnabled, order.now)
  }

  function PicksReserved(
      db: Db, order: ForOrder, material: Id, picks: seq<FifoEngine.Pick>, shuffles: Shuffles): Attempt
    decreases |picks|
  {
    if picks == [] then Attempt(db, None)
    else
      var d := Shuffled(db, shuffles);
      match PickReserved(d, order, material, picks[0])
      case Err(e) => Attempt(d, Some(e))
      case Ok(t) => PicksReserved(t, order, material, picks[1..], Later(shuffles))
  }

  function SuggestionFor(db: Db, order: ForOrder, want: Want): FifoEngine.Suggestion {
    FifoEngine.Suggest(db, order.company, want.material, want.quantity, None, Available, order.fefoEnabled)
  }

  /** A line that available stock does not fully cover is skipped. */
  function WantReserved(db: Db, order: ForOrder, want: Want, shuffles: Shuffles): Attempt {
    var d := Shuffled(db, shuffles);
    var s := SuggestionFor(d, order, want);
    if !s.fullyCovered then Attempt(d, None) else PicksReserved(d, order, want.material, s.picks, Later(shuffles))
  }

  function WantsReserved(db: Db, order: ForOrder, wants: seq<Want>, shuffles: seq<Shuffles>): Attempt
    decreases |wants|
  {
    if wants == [] then Attempt(db, None)
    else
      var a := WantReserved(db, order, wants[0], Next(shuffles));
      if a.error.Some? then a else WantsReserved(a.db, order, wants[1..], Later(shuffles))
  }

  method ReservePicks(
      db: Database, order: ForOrder, material: Id, picks: seq<FifoEngine.Pick>, shuffles: Shuffles)
    returns (error: Option<Error>)
    modifies db
    ensures PicksReserved(old(db.State()), order, material, picks, shuffles) == Attempt(db.State(), error)
  {
    var rest := shuffles;
    var k := 0;
    while k < |picks|
      invariant 0 <= k <= |picks|
      invariant PicksReserved(db.State(), order, material, picks[k..], rest)
                == PicksReserved(old(db.State()), order, material, picks, shuffles)
    {
      assert picks[k..][1..] == picks[k + 1..];
      Shuffle(db, rest);
      var created := Create(db, InputFor(order, material, picks[k]), order.fefoEnabled, order.now);
      if created.Err? {
        return Some(created.error);
      }
      rest := Later(rest);
      k := k + 1;
    }
    return None;
  }

  method ReserveWant(db: Database, order: ForOrder, want: Want, shuffles: Shuffles) returns (error: Option<Error>)
    modifies db
    ensures WantReserved(old(db.State()), order, want, shuffles) == Attempt(db.State(), error)
  {
    Shuffle(db, shuffles);
    var suggestion := FifoEngine.SuggestBatches(db, order.company, want.material, want.quantity, None, Available,
        order.fefoEnabled);
    if !suggestion.fullyCovered {
      return None;
    }
    error := ReservePicks(db, order, want.material, suggestion.picks, Later(shuffles));
  }

  method ReserveWants(db: Database, order: ForOrder, wants: seq<Want>, shuffles: seq<Shuffles>)
    returns (error: Option<Error>)
    modifies db
    ensures WantsReserved(old(db.State()), order, wants, shuffles) == Attempt(db.State(), error)
  {
    var rest := shuffles;
    var i := 0;
    while i < |wants|
      invariant 0 <= i <= |wants|
      invariant WantsReserved(db.State(), order, wants[i..], rest)
                == WantsReserved(old(db.State()), order, wants, shuffles)
    {
      assert wants[i..][1..] == wants[i + 1..];
      error := ReserveWant(db, order, wants[i], Next(rest));
      if error.Some? {
        return;
      }
      rest := Later(rest);
      i := i + 1;
    }
    return None;
  }

  // ----- material requests -----

  function RequestLines(request: nat, wants: seq<Want>): (lines: seq<RequestLine>)
    ensures |lines| == |wants|
    ensures forall i | 0 <= i < |lines| ::
              lines[i].request == request && lines[i].material == wants[i].material
              && lines[i].requested == wants[i].quantity && lines[i].issued == 0.0
  {
    seq(|wants|, i requires 0 <= i < |wants| => RequestLine(request, wants[i].material, wants[i].quantity, 0.0))
  }

  function RequestOpened(db: Db, company: Id, productionOrder: Option<Id>, wants: seq<Want>): Db {
    db.(requests := db.requests + [Request(company, productionOrder, Pending)],
        requestLines := db.requestLines + RequestLines(|db.requests|, wants))
  }

  predicate KnownOrder(masters: Masters, company: Id, productionOrder: Id) {
    productionOrder in masters.productionOrders && masters.productionOrders[productionOrder].company == company
  }

  function OrderFor(db: Db, company: Id, productionOrder: Option<Id>, fefoEnabled: bool, now: int): ForOrder {
    var priority := if productionOrder.Some? && KnownOrder(db.masters, company, productionOrder.value)
                    then Some(db.masters.productionOrders[productionOrder.value].priority) else None;
    ForOrder(company, productionOrder, priority, fefoEnabled, now)
  }

  /** Why a request is refused before anything is written, if it is. */
  function RequestRefusal(db: Db, company: Id, productionOrder: Option<Id>, wants: seq<Want>): Option<Error> {
    if wants == [] then Some(BadRequest)
    else if productionOrder.Some? && !KnownOrder(db.masters, company, productionOrder.value) then Some(NotFound)
    else if exists i | 0 <= i < |wants| ::
              !(wants[i].quantity > 0.0) || !KnownMaterial(db.masters, company, wants[i].material) then Some(BadRequest)
    else None
  }

  function RequestCreated(
      db: Db, company: Id, productionOrder: Option<Id>, wants: seq<Want>, fefoEnabled: bool, now: int,
      shuffles: seq<Shuffles>): Attempt
  {
    var refusal := RequestRefusal(db, company, productionOrder, wants);
    if refusal.Some? then Attempt(db, refusal)
    else
      WantsReserved(RequestOpened(db, company, productionOrder, wants),
          OrderFor(db, company, productionOrder, fefoEnabled, now), wants, shuffles)
  }

  method OpenRequest(db: Database, order: ForOrder, wants: seq<Want>, shuffles: seq<Shuffles>)
    returns (error: Option<Error>)
    modifies db
    ensures WantsReserved(RequestOpened(old(db.State()), order.company, order.productionOrder, wants), order, wants,
                shuffles)
              == Attempt(db.State(), error)
  {
    var request := |db.requests|;
    db.requests := db.requests + [Request(order.company, order.productionOrder, Pending)];
    db.requestLines := db.requestLines + RequestLines(request, wants);
    error := ReserveWants(db, order, wants, shuffles);
  }

  method CreateRequest(
      db: Database, company: Id, productionOrder: Option<Id>, wants: seq<Want>, fefoEnabled: bool, now: int,
      shuffles: seq<Shuffles>)
    returns (error: Option<Error>)
    modifies db
    ensures RequestCreated(old(db.State()), company, productionOrder, wants, fefoEnabled, now, shuffles)
              == Attempt(db.State(), error)
  {
    error := RequestRefusal(db.State(), company, productionOrder, wants);
    if error.Some? {
      return;
    }
    error := OpenRequest(db, OrderFor(db.State(), company, productionOrder, fefoEnabled, now), wants, shuffles);
  }

  // ----- BOM explosion -----

  function Units(n: int): real {
    n as real / 10000.0
  }

  /** Math.round to four decimals: halves round up. */
  function RoundToUnit(x: real): real {
    Units((x * 10000.0 + 0.5).Floor)
  }

  function Scrap(line: BomLine): real {
    if line.scrapFactor.Some? && line.scrapFactor.value > 0.0 then line.scrapFactor.value else 0.0
  }

  function Amount(line: BomLine, quantity: real): real {
    line.quantity * quantity * (1.0 + Scrap(line))
  }

  function Exploded(bom: Bom, quantity: real): seq<Want> {
    seq(|bom.lines|, i requires 0 <= i < |bom.lines| =>
      Want(bom.lines[i].component, RoundToUnit(Amount(bom.lines[i], quantity))))
  }

  function ExplodeRefusal(db: Db, company: Id, bom: Id, productionOrder: Id, quantity: real): (refusal: Option<Error>)
    ensures refusal.None? ==> bom in db.masters.boms
  {
    if !(quantity > 0.0) then Some(BadRequest)
    else if bom !in db.masters.boms || db.masters.boms[bom].company != company then Some(NotFound)
    else if !db.masters.boms[bom].active || db.masters.boms[bom].lines == [] then Some(BadRequest)
    else if !KnownOrder(db.masters, company, productionOrder) then Some(NotFound)
    else None
  }

  function BomExploded(
      db: Db, company: Id, bom: Id, productionOrder: Id, quantity: real, fefoEnabled: bool, now: int,
      shuffles: seq<Shuffles>): Attempt
  {
    var refusal := ExplodeRefusal(db, company, bom, productionOrder, quantity);
    if refusal.Some? then Attempt(db, refusal)
    else
      var wants := Exploded(db.masters.boms[bom], quantity);
      WantsReserved(RequestOpened(db, company, Some(productionOrder), wants),
                    OrderFor(db, company, Some(productionOrder), fefoEnabled, now), wants, shuffles)
  }

  method Explode(
      db: Database, company: Id, bom: Id, productionOrder: Id, quantity: real, fefoEnabled: bool, now: int,
      shuffles: seq<Shuffles>)
    returns (error: Option<Error>)
    modifies db
    ensures BomExploded(old(db.State()), company, bom, productionOrder, quantity, fefoEnabled, now, shuffles)
              == Attempt(db.State(), error)
  {
    error := ExplodeRefusal(db.State(), company, bom, productionOrder, quantity);
    if error.Some? {
      return;
    }
    var wants := Exploded(db.masters.boms[bom], quantity);
    error := OpenRequest(db, OrderFor(db.State(), company, Some(productionOrder), fefoEnabled, now), wants, shuffles);
  }

  // ----- finished goods -----

  function FgReceived(
      db: Db, company: Id, productionOrder: Id, material: Id, warehouse: Id, quantity: real, location: Option<Id>,
      expiryDate: Option<int>, batchNumber: int, now: int): Result<Db>
  {
    if !(quantity > 0.0) then Err(QuantityNotPositive)
    else if !KnownOrder(db.masters, company, productionOrder) then Err(NotFound)
    else if !KnownMaterial(db.masters, company, material) then Err(NotFound)
    else
      var lot := Lot(company, material, |db.stock.batches|);
      var batches := db.stock.batches + [Batch(company, material, batchNumber, now, expiryDate)];
      var stock :- Added(db.stock.(batches := batches), Key(lot, warehouse, location, Available), quantity, FgReceipt);
      Ok(db.(stock := stock, fgItems := db.fgItems + [DocItem(lot, quantity)]))
  }

  method ReceiveFg(
      db: Database, company: Id, productionOrder: Id, material: Id, warehouse: Id, quantity: real,
      location: Option<Id>, expiryDate: Option<int>, batchNumber: int, now: int)
    returns (r: Result<nat>)
    modifies db
    ensures match FgReceived(old(db.State()), company, productionOrder, material, warehouse, quantity, location,
              expiryDate, batchNumber, now)
            case Ok(s) => r == Ok(old(|db.batches|)) && db.State() == s
            case Err(e) => r == Err(e) && db.State() == old(db.State())
  {
    if !(quantity > 0.0) {
      return Err(QuantityNotPositive);
    }
    if !KnownOrder(db.masters, company, productionOrder) || !KnownMaterial(db.masters, company, material) {
      return Err(NotFound);
    }
    var before := db.State();
    var batch := |db.batches|;
    var lot := Lot(company, material, batch);
    db.batches := db.batches + [Batch(company, material, batchNumber, now, expiryDate)];
    var added := Add(db, Key(lot, warehouse, location, Available), quantity, FgReceipt);
    if added.Err? {
      db.Rollback(before);
      return Err(added.error);
    }
    db.fgItems := db.fgItems + [DocItem(lot, quantity)];
    return Ok(batch);
  }
}
