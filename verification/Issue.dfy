/** Issues to production, returns from it, and transfers between warehouses. */
module Issue {
  import opened Base
  import opened Tables
  import opened StockEngine
  import opened ReservationEngine
  import opened Workflow
  import FifoEngine

  // ----- issue -----

  datatype IssueLine = IssueLine(material: Id, batch: nat, quantity: real, location: Option<Id>)

  datatype IssueInput = IssueInput(
    warehouse: Id,
    productionOrder: Option<Id>,
    request: Option<nat>,
    allowFifoOverride: bool,
    lines: seq<IssueLine>)

  /** What every line of one issue shares. `snapshot` is the database as read
      outside the transaction: the FIFO check looks there. */
  datatype Context = Context(
    company: Id,
    warehouse: Id,
    productionOrder: Option<Id>,
    request: Option<nat>,
    allowOverride: bool,
    mayOverride: bool,
    fefoEnabled: bool,
    snapshot: Db)

  /** Where a line takes its stock. */
  datatype Route = FromReserved(location: Option<Id>) | FromAvailable(key: Key, fifoOverride: bool)

  /** The state inside the transaction and how each line so far was served. */
  datatype Progress = Progress(db: Db, routes: seq<Route>)

  function LotOf(ctx: Context, line: IssueLine): Lot {
    Lot(ctx.company, line.material, line.batch)
  }

  /** Stock of the line's lot in the issue's warehouse, at the line's location if it names one. */
  function StockFor(ctx: Context, line: IssueLine, status: Status): Where {
    OfLotIn(LotOf(ctx, line), status).(warehouse := Some(ctx.warehouse),
                                       location := if line.location.Some? then Some(line.location) else None)
  }

  predicate PrefersReserved(db: Db, ctx: Context, line: IssueLine) {
    || ctx.request.Some?
    || exists i | 0 <= i < |db.reservations| :: Matches(db.reservations[i], LotOf(ctx, line), ctx.productionOrder)
  }

  /** The batch the FIFO check expects, read from the snapshot. */
  function Expected(ctx: Context, line: IssueLine): Option<nat> {
    FifoEngine.Head(FifoEngine.Suggest(ctx.snapshot, ctx.company, line.material, line.quantity, Some(ctx.warehouse),
        Available, ctx.fefoEnabled))
  }

  function AvailableRoute(db: Db, ctx: Context, line: IssueLine): Result<Route> {
    var isFifo := FifoEngine.IsCompliant(Expected(ctx, line), line.batch);
    if !isFifo && !ctx.allowOverride then Err(FifoViolation)
    else if !isFifo && !ctx.mayOverride then Err(Forbidden)
    else
      var j := Find(db.stock.rows, StockFor(ctx, line, Available), Some(line.quantity));
      if j == |db.stock.rows| then Err(InsufficientStock)
      else Ok(FromAvailable(db.stock.rows[j].key, !isFifo))
  }

  function ChosenRoute(db: Db, ctx: Context, line: IssueLine): Result<Route> {
    var i := Find(db.stock.rows, StockFor(ctx, line, Reserved), Some(line.quantity));
    if PrefersReserved(db, ctx, line) && i < |db.stock.rows| then Ok(FromReserved(db.stock.rows[i].key.location))
    else AvailableRoute(db, ctx, line)
  }

  /** The row is of the line's lot, in the issue's warehouse and at the line's location if it
      names one, and holds the whole quantity. */
  predicate Holds(r: Row, ctx: Context, line: IssueLine, status: Status) {
    && r.key.lot == Lot(ctx.company, line.material, line.batch) && r.key.warehouse == ctx.warehouse
    && (line.location.Some? ==> r.key.location == line.location)
    && r.key.status == status && r.quantity >= line.quantity
  }

  predicate HeldInOneRow(rows: seq<Row>, ctx: Context, line: IssueLine, status: Status) {
    exists i | 0 <= i < |rows| :: Holds(rows[i], ctx, line, status)
  }

  /** The route leads to such a row. */
  predicate RouteServes(rows: seq<Row>, ctx: Context, line: IssueLine, route: Route) {
    match route
    case FromReserved(location) =>
      exists i | 0 <= i < |rows| && rows[i].key.location == location :: Holds(rows[i], ctx, line, Reserved)
    case FromAvailable(key, _) =>
      exists i | 0 <= i < |rows| && rows[i].key == key :: Holds(rows[i], ctx, line, Available)
  }

  function Consumption(ctx: Context, line: IssueLine, location: Option<Id>): ConsumeInput {
    ConsumeInput(LotOf(ctx, line), ctx.warehouse, location, line.quantity, ctx.productionOrder)
  }

  /** The stock and reservations after a line is served by a route. */
  function Served(db: Db, ctx: Context, line: IssueLine, route: Route): Result<Db> {
    match route
    case FromReserved(location) => ConsumedIn(db, Consumption(ctx, line, location))
    case FromAvailable(key, _) =>
      var stock :- Deducted(db.stock, key, line.quantity, Issued);
      Ok(db.(stock := stock))
  }

  /** Position of the first line of a request for a material; |lines| if none. */
  function RequestLineFrom(lines: seq<RequestLine>, request: nat, material: Id, i: nat): (found: nat)
    requires i <= |lines|
    ensures i <= found <= |lines|
    ensures found < |lines| ==> lines[found].request == request && lines[found].material == material
    ensures forall j | i <= j < found :: !(lines[j].request == request && lines[j].material == material)
    decreases |lines| - i
  {
    if i == |lines| || (lines[i].request == request && lines[i].material == material) then i
    else RequestLineFrom(lines, request, material, i + 1)
  }

  /** Credits an issued quantity to the first line of the request for the material. */
  function Credited(lines: seq<RequestLine>, request: Option<nat>, material: Id, quantity: real): seq<RequestLine> {
    if request.None? then lines
    else
      var i := RequestLineFrom(lines, request.value, material, 0);
      if i == |lines| then lines else lines[i := lines[i].(issued := lines[i].issued + quantity)]
  }

  function ItemOf(ctx: Context, line: IssueLine, route: Route): IssueItem {
    IssueItem(LotOf(ctx, line), line.quantity, route.FromAvailable? && route.fifoOverride, ctx.request)
  }

  function Recorded(db: Db, ctx: Context, line: IssueLine, route: Route): Db {
    db.(issueItems := db.issueItems + [ItemOf(ctx, line, route)],
        requestLines := Credited(db.requestLines, ctx.request, line.material, line.quantity))
  }

  function LineIssued(p: Progress, ctx: Context, line: IssueLine): Result<Progress> {
    var route :- ChosenRoute(p.db, ctx, line);
    var served :- Served(p.db, ctx, line, route);
    Ok(Progress(Recorded(served, ctx, line, route), p.routes + [route]))
  }

  function LinesIssued(p: Progress, ctx: Context, lines: seq<IssueLine>): Result<Progress>
    decreases |lines|
  {
    if lines == [] then Ok(p)
    else
      var q :- LineIssued(p, ctx, lines[0]);
      LinesIssued(q, ctx, lines[1..])
  }

  function RequestStatusAfter(lines: seq<RequestLine>, request: nat): RequestStatus {
    if forall i | 0 <= i < |lines| && lines[i].request == request ::
      lines[i].issued >= lines[i].requested
    then Fulfilled
    else if exists i | 0 <= i < |lines| :: lines[i].request == request && lines[i].issued > 0.0 then Partial
    else Pending
  }

  function Closing(db: Db, request: Option<nat>): Db {
    if request.None? || request.value >= |db.requests| then db
    else
      db.(requests := db.requests[request.value := db.requests[request.value].(
            status := RequestStatusAfter(db.requestLines, request.value))])
  }

  /** A request named on an issue is one of the company's that is still open. */
  function RequestChecked(db: Db, company: Id, request: Option<nat>): (r: Result<()>)
    ensures r.Ok? && request.Some? ==> request.value < |db.requests|
  {
    if request.None? then Ok(())
    else if request.value >= |db.requests| || db.requests[request.value].company != company then Err(NotFound)
    else
      var status := db.requests[request.value].status;
      if status.Fulfilled? || status.Cancelled? then Err(Closed) else Ok(())
  }

  /** The checks before the transaction: what the lines share, or why not. */
  function IssueContext(db: Db, company: Id, dto: IssueInput, policy: Policy, mayOverride: bool): Result<Context> {
    if (company, dto.warehouse) !in db.masters.warehouses then Err(NotFound)
    else if dto.lines == [] then Err(BadRequest)
    else
      var _ :- RequestChecked(db, company, dto.request);
      var inherits := dto.productionOrder.None? && dto.request.Some?;
      var productionOrder := if inherits then db.requests[dto.request.value].productionOrder else dto.productionOrder;
      if policy.issueRequiresProductionOrder && productionOrder.None? then Err(BadRequest)
      else Ok(Context(company, dto.warehouse, productionOrder, dto.request, dto.allowFifoOverride, mayOverride,
          policy.fefoEnabled, db))
  }

  function IssuePosted(db: Db, company: Id, dto: IssueInput, policy: Policy, mayOverride: bool): Result<Progress> {
    var ctx :- IssueContext(db, company, dto, policy, mayOverride);
    var p :- LinesIssued(Progress(db, []), ctx, dto.lines);
    Ok(p.(db := Closing(p.db, dto.request)))
  }

  method ChooseRoute(db: Database, ctx: Context, line: IssueLine) returns (r: Result<Route>)
    ensures r == ChosenRoute(db.State(), ctx, line)
    ensures r.Ok? ==> RouteServes(db.rows, ctx, line, r.value)
  {
    if PrefersReserved(db.State(), ctx, line) {
      var i := Find(db.rows, StockFor(ctx, line, Reserved), Some(line.quantity));
      if i < |db.rows| {
        return Ok(FromReserved(db.rows[i].key.location));
      }
    }
    var isFifo := FifoEngine.IsCompliant(Expected(ctx, line), line.batch);
    if !isFifo && !ctx.allowOverride {
      return Err(FifoViolation);
    }
    if !isFifo && !ctx.mayOverride {
      return Err(Forbidden);
    }
    var j := Find(db.rows, StockFor(ctx, line, Available), Some(line.quantity));
    if j == |db.rows| {
      return Err(InsufficientStock);
    }
    return Ok(FromAvailable(db.rows[j].key, !isFifo));
  }

  method Serve(db: Database, ctx: Context, line: IssueLine, route: Route) returns (r: Result<()>)
    modifies db
    ensures match Served(old(db.State()), ctx, line, route)
            case Ok(s) => r.Ok? && db.State() == s
            case Err(e) => r == Err(e)
  {
    match route {
      case FromReserved(location) =>
        r := ConsumeForIssue(db, Consumption(ctx, line, location));
      case FromAvailable(key, _) =>
        var _ :- Deduct(db, key, line.quantity, Issued);
        return Ok(());
    }
  }

  method RecordLine(db: Database, ctx: Context, line: IssueLine, route: Route)
    modifies db`issueItems, db`requestLines
    ensures db.State() == Recorded(old(db.State()), ctx, line, route)
  {
    db.issueItems := db.issueItems + [ItemOf(ctx, line, route)];
    if ctx.request.Some? {
      var i := RequestLineFrom(db.requestLines, ctx.request.value, line.material, 0);
      if i < |db.requestLines| {
        var requested := db.requestLines[i];
        db.requestLines := db.requestLines[i := requested.(issued := requested.issued + line.quantity)];
      }
    }
  }

  method IssueOneLine(db: Database, ctx: Context, line: IssueLine, ghost routes: seq<Route>) returns (r: Result<Route>)
    modifies db
    ensures match LineIssued(Progress(old(db.State()), routes), ctx, line)
            case Ok(q) => r.Ok? && q.routes == routes + [r.value] && db.State() == q.db
            case Err(e) => r == Err(e)
  {
    var route :- ChooseRoute(db, ctx, line);
    var _ :- Serve(db, ctx, line, route);
    RecordLine(db, ctx, line, route);
    return Ok(route);
  }

  method IssueLines(db: Database, ctx: Context, lines: seq<IssueLine>) returns (r: Result<bool>)
    modifies db
    ensures match LinesIssued(Progress(old(db.State()), []), ctx, lines)
            case Ok(p) =>
              && r.Ok? && db.State() == p.db
              && (r.value <==> exists i | 0 <= i < |p.routes| :: p.routes[i].FromReserved?)
            case Err(e) => r == Err(e)
  {
    var reservedConsumed := false;
    ghost var routes: seq<Route> := [];
    var i := 0;
    while i < |lines|
      invariant 0 <= i <= |lines|
      invariant LinesIssued(Progress(db.State(), routes), ctx, lines[i..])
             == LinesIssued(Progress(old(db.State()), []), ctx, lines)
      invariant reservedConsumed <==> exists k | 0 <= k < |routes| :: routes[k].FromReserved?
    {
      assert lines[i..][1..] == lines[i + 1..];
      var route :- IssueOneLine(db, ctx, lines[i], routes);
      reservedConsumed := reservedConsumed || route.FromReserved?;
      ghost var longer := routes + [route];
      assert longer[|routes|] == route && longer[..|routes|] == routes;
      routes := longer;
      i := i + 1;
    }
    return Ok(reservedConsumed);
  }

  /** Posts an issue in one transaction; the value says whether any line was
      served from reserved stock. */
  method CreateIssue(
      db: Database, company: Id, dto: IssueInput, policy: Policy, mayOverride: bool) returns (r: Result<bool>)
    modifies db
    ensures match IssuePosted(old(db.State()), company, dto, policy, mayOverride)
            case Ok(p) =>
              && r.Ok? && db.State() == p.db
              && (r.value <==> exists i | 0 <= i < |p.routes| :: p.routes[i].FromReserved?)
            case Err(e) => r == Err(e) && db.State() == old(db.State())
  {
    var before := db.State();
    var ctx :- IssueContext(before, company, dto, policy, mayOverride);
    var issued := IssueLines(db, ctx, dto.lines);
    if issued.Err? {
      db.Rollback(before);
      return Err(issued.error);
    }
    if dto.request.Some? && dto.request.value < |db.requests| {
      var request := dto.request.value;
      var status := RequestStatusAfter(db.requestLines, request);
      db.requests := db.requests[request := db.requests[request].(status := status)];
    }
    return issued;
  }

  // ----- return -----

  datatype Condition = Good | Spoilt | Refused

  datatype ReturnLine = ReturnLine(material: Id, batch: nat, quantity: real, condition: Condition, location: Option<Id>)

  function StatusOf(condition: Condition): Status {
    match condition
    case Good => Available
    case Spoilt => Damaged
    case Refused => Rejected
  }

  function ReturnKey(company: Id, warehouse: Id, line: ReturnLine): Key {
    Key(Lot(company, line.material, line.batch), warehouse, line.location, StatusOf(line.condition))
  }

  function LineReturned(db: Db, company: Id, warehouse: Id, line: ReturnLine): Result<Db> {
    var stock :- Added(db.stock, ReturnKey(company, warehouse, line), line.quantity, Returned);
    Ok(db.(stock := stock, returnItems := db.returnItems
        + [DocItem(Lot(company, line.material, line.batch), line.quantity)]))
  }

  function LinesReturned(db: Db, company: Id, warehouse: Id, lines: seq<ReturnLine>): Result<Db>
    decreases |lines|
  {
    if lines == [] then Ok(db)
    else
      var t :- LineReturned(db, company, warehouse, lines[0]);
      LinesReturned(t, company, warehouse, lines[1..])
  }

  function ReturnPosted(db: Db, company: Id, warehouse: Id, lines: seq<ReturnLine>): Result<Db> {
    if (company, warehouse) !in db.masters.warehouses then Err(NotFound)
    else LinesReturned(db, company, warehouse, lines)
  }

  method CreateReturn(db: Database, company: Id, warehouse: Id, lines: seq<ReturnLine>) returns (r: Result<()>)
    modifies db
    ensures match ReturnPosted(old(db.State()), company, warehouse, lines)
            case Ok(s) => r.Ok? && db.State() == s
            case Err(e) => r == Err(e) && db.State() == old(db.State())
  {
    if (company, warehouse) !in db.masters.warehouses {
      return Err(NotFound);
    }
    var before := db.State();
    var i := 0;
    while i < |lines|
      invariant 0 <= i <= |lines|
      invariant LinesReturned(db.State(), company, warehouse, lines[i..])
                == LinesReturned(before, company, warehouse, lines)
    {
      var line := lines[i];
      assert lines[i..][1..] == lines[i + 1..];
      var added := Add(db, ReturnKey(company, warehouse, line), line.quantity, Returned);
      if added.Err? {
        db.Rollback(before);
        return Err(added.error);
      }
      db.returnItems := db.returnItems + [DocItem(Lot(company, line.material, line.batch), line.quantity)];
      i := i + 1;
    }
    return Ok(());
  }

  // ----- transfer -----

  /** An absent status means available. */
  datatype TransferLine = TransferLine(
    material: Id,
    batch: nat,
    quantity: real,
    fromLocation: Option<Id>,
    toLocation: Option<Id>,
    status: Status)

  function TransferKey(company: Id, warehouse: Id, location: Option<Id>, line: TransferLine): Key {
    Key(Lot(company, line.material, line.batch), warehouse, location, line.status)
  }

  function LineTransferred(db: Db, company: Id, from: Id, to: Id, line: TransferLine): Result<Db> {
    var stock :- Moved(db.stock, TransferKey(company, from, line.fromLocation, line),
        TransferKey(company, to, line.toLocation, line),
                       line.quantity, TransferOut, TransferIn);
    Ok(db.(stock := stock))
  }

  function LinesTransferred(db: Db, company: Id, from: Id, to: Id, lines: seq<TransferLine>): Result<Db>
    decreases |lines|
  {
    if lines == [] then Ok(db)
    else
      var t :- LineTransferred(db, company, from, to, lines[0]);
      LinesTransferred(t, company, from, to, lines[1..])
  }

  function TransferPosted(db: Db, company: Id, from: Id, to: Id, lines: seq<TransferLine>): Result<Db> {
    if (company, from) !in db.masters.warehouses || (company, to) !in db.masters.warehouses then Err(NotFound)
    else LinesTransferred(db, company, from, to, lines)
  }

  method CreateTransfer(db: Database, company: Id, from: Id, to: Id, lines: seq<TransferLine>) returns (r: Result<()>)
    modifies db
    ensures match TransferPosted(old(db.State()), company, from, to, lines)
            case Ok(s) => r.Ok? && db.State() == s
            case Err(e) => r == Err(e) && db.State() == old(db.State())
  {
    if (company, from) !in db.masters.warehouses || (company, to) !in db.masters.warehouses {
      return Err(NotFound);
    }
    var before := db.State();
    var i := 0;
    while i < |lines|
      invariant 0 <= i <= |lines|
      invariant LinesTransferred(db.State(), company, from, to, lines[i..])
                == LinesTransferred(before, company, from, to, lines)
    {
      var line := lines[i];
      assert lines[i..][1..] == lines[i + 1..];
      var moved := Move(db, TransferKey(company, from, line.fromLocation, line),
          TransferKey(company, to, line.toLocation, line),
                        line.quantity, TransferOut, TransferIn);
      if moved.Err? {
        db.Rollback(before);
        return Err(moved.error);
      }
      i := i + 1;
    }
    return Ok(());
  }
}
