/** What issues, returns and transfers keep, and what an issue takes. */
module IssueLaws {
  import opened Base
  import opened Tables
  import opened StockEngine
  import opened ReservationEngine
  import opened Invariants
  import opened Workflow
  import opened Issue
  import FifoEngine

  // ----- one line of an issue -----

  /** A route names stock of the line's lot in the issue's warehouse, at its location if it has one. */
  predicate RouteFits(ctx: Context, line: IssueLine, route: Route) {
    match route
    case FromReserved(location) => line.location.Some? ==> location == line.location
    case FromAvailable(key, _) => StockFor(ctx, line, Available).Hits(key)
  }

  lemma ChosenFits(db: Db, ctx: Context, line: IssueLine)
    requires ChosenRoute(db, ctx, line).Ok?
    ensures RouteFits(ctx, line, ChosenRoute(db, ctx, line).value)
  {
  }

  /** A served line takes its whole quantity from one row of its lot, available or
      reserved, in the issue's warehouse, and touches nothing else but reservations. */
  lemma ServedTakes(db: Db, ctx: Context, line: IssueLine, route: Route) returns (from: Key)
    requires Agrees(db.stock) && OnBatches(db.reservations)
    requires RouteFits(ctx, line, route) && Served(db, ctx, line, route).Ok?
    ensures var t := Served(db, ctx, line, route).value;
            && t == db.(stock := t.stock, reservations := t.reservations)
            && Agrees(t.stock) && t.stock.batches == db.stock.batches && OnBatches(t.reservations)
            && from.lot == LotOf(ctx, line) && from.warehouse == ctx.warehouse
            && (line.location.Some? ==> from.location == line.location)
            && from.status == (if route.FromReserved? then Reserved else Available)
            && Shifts(db.stock.rows, t.stock.rows, from, -line.quantity)
  {
    match route
    case FromReserved(location) =>
      from := ConsumedStock(db, Consumption(ctx, line, location));
      if line.location.Some? {
        ConsumedAtLocation(db, Consumption(ctx, line, location), from);
      }
    case FromAvailable(key, _) =>
      from := key;
      DeductedAgrees(db.stock, key, line.quantity, Issued);
  }

  lemma ConsumedAtLocation(db: Db, p: ConsumeInput, from: Key)
    requires Agrees(db.stock) && OnBatches(db.reservations) && ConsumedIn(db, p).Ok? && p.location.Some?
    requires from.status == Reserved && from.lot == p.lot && from.warehouse == p.warehouse
    requires Shifts(db.stock.rows, ConsumedIn(db, p).value.stock.rows, from, -p.quantity)
    ensures from.location == p.location
  {
    var t := ConsumedIn(db, p).value;
    var taken := db.stock.rows[Find(db.stock.rows, ReservedStock(p), Some(p.quantity))].key;
    DeductedAgrees(db.stock, taken, p.quantity, Issued);
    assert OnHand(t.stock.rows, Exactly(taken))
        == OnHand(db.stock.rows, Exactly(taken)) + (if Exactly(taken).Hits(from) then -p.quantity else 0.0);
    assert OnHand(t.stock.rows, Exactly(taken))
        == OnHand(db.stock.rows, Exactly(taken)) + (if Exactly(taken).Hits(taken) then -p.quantity else 0.0);
  }

  /** Consuming reserved stock lowers a lot's active reservations by no more than
      it deducts, and no other lot's. */
  lemma ServedHolds(db: Db, ctx: Context, line: IssueLine, route: Route, lot: Lot)
    requires Agrees(db.stock) && OnBatches(db.reservations)
    requires Served(db, ctx, line, route).Ok?
    ensures Held(Served(db, ctx, line, route).value.reservations, lot)
            >= Held(db.reservations, lot)
                + (if lot == LotOf(ctx, line) && route.FromReserved? then -line.quantity else 0.0)
  {
    if route.FromReserved? {
      var p := Consumption(ctx, line, route.location);
      var from := ConsumedStock(db, p);
      ConsumedHeld(db, p, lot);
    }
  }

  lemma LineIssuedIs(p: Progress, ctx: Context, line: IssueLine) returns (route: Route, served: Db)
    requires LineIssued(p, ctx, line).Ok?
    ensures ChosenRoute(p.db, ctx, line) == Ok(route) && Served(p.db, ctx, line, route) == Ok(served)
    ensures LineIssued(p, ctx, line).value.db == Recorded(served, ctx, line, route)
  {
    route := ChosenRoute(p.db, ctx, line).value;
    served := Served(p.db, ctx, line, route).value;
  }

  lemma LineIssuedKeeps(p: Progress, ctx: Context, line: IssueLine)
    requires Core(p.db) && LineIssued(p, ctx, line).Ok?
    ensures var t := LineIssued(p, ctx, line).value.db;
            Core(t) && SlackGrows(p.db, t) && (AllHoldBalanced(p.db) ==> AllHoldBalanced(t))
  {
    var db := p.db;
    var route := ChosenRoute(db, ctx, line).value;
    var served := Served(db, ctx, line, route).value;
    var t := LineIssued(p, ctx, line).value.db;
    var lot := LotOf(ctx, line);
    ChosenFits(db, ctx, line);
    var from := ServedTakes(db, ctx, line, route);
    ShiftChanges(db.stock.rows, t.stock.rows, from, -line.quantity);
    var reserved := if route.FromReserved? then -line.quantity else 0.0;
    assert Changes(db.stock.rows, t.stock.rows, lot, -line.quantity, reserved, 0.0);
    forall other: Lot
      ensures Documented(t, other) == Documented(db, other) + (if other == lot then -line.quantity else 0.0)
      ensures Held(t.reservations, other) >= Held(db.reservations, other) + (if other == lot then reserved else 0.0)
    {
      IssuedAppend(db.issueItems, ItemOf(ctx, line, route), other);
      ServedHolds(db, ctx, line, route, other);
    }
    ChangesKeepCore(db, t, lot, -line.quantity, reserved, 0.0);
    ChangesKeepHold(db, t, lot, -line.quantity, reserved);
  }

  lemma {:induction false} LinesIssuedKeep(p: Progress, ctx: Context, lines: seq<IssueLine>)
    requires Core(p.db) && LinesIssued(p, ctx, lines).Ok?
    ensures var t := LinesIssued(p, ctx, lines).value.db;
            Core(t) && SlackGrows(p.db, t) && (AllHoldBalanced(p.db) ==> AllHoldBalanced(t))
    decreases |lines|
  {
    if lines == [] {
    } else {
      LineIssuedKeeps(p, ctx, lines[0]);
      LinesIssuedKeep(LineIssued(p, ctx, lines[0]).value, ctx, lines[1..]);
    }
  }

  /** An issue keeps every invariant, whatever its lines. */
  lemma IssuePostedKeeps(db: Db, company: Id, dto: IssueInput, policy: Policy, mayOverride: bool)
    requires Core(db) && IssuePosted(db, company, dto, policy, mayOverride).Ok?
    ensures var t := IssuePosted(db, company, dto, policy, mayOverride).value.db;
            Core(t) && SlackGrows(db, t) && (AllHoldBalanced(db) ==> AllHoldBalanced(t))
  {
    var ctx := IssueContext(db, company, dto, policy, mayOverride).value;
    LinesIssuedKeep(Progress(db, []), ctx, dto.lines);
    SameStore(LinesIssued(Progress(db, []), ctx, dto.lines).value.db,
        IssuePosted(db, company, dto, policy, mayOverride).value.db);
  }

  // ----- exactness -----

  /** Available plus reserved stock of a lot in a warehouse. */
  function Usable(db: Db, lot: Lot, warehouse: Id): real {
    OnHand(db.stock.rows, UsableIn(lot, warehouse, Available)) +
    OnHand(db.stock.rows, UsableIn(lot, warehouse, Reserved))
  }

  /** What the lines of an issue ask of a lot. */
  function Asked(lines: seq<IssueLine>, company: Id, lot: Lot): real {
    if lines == [] then 0.0
    else
      var line := lines[0];
      (if Lot(company, line.material, line.batch) == lot then line.quantity else 0.0) + Asked(lines[1..], company, lot)
  }

  function UsableIn(lot: Lot, warehouse: Id, status: Status): Where {
    OfLotIn(lot, status).(warehouse := Some(warehouse))
  }

  lemma LineIssuedExact(p: Progress, ctx: Context, line: IssueLine, lot: Lot, warehouse: Id)
    requires Core(p.db) && LineIssued(p, ctx, line).Ok?
    ensures Usable(LineIssued(p, ctx, line).value.db, lot, warehouse)
         == Usable(p.db, lot, warehouse)
             - (if LotOf(ctx, line) == lot && ctx.warehouse == warehouse then line.quantity else 0.0)
  {
    var route, served := LineIssuedIs(p, ctx, line);
    ChosenFits(p.db, ctx, line);
    var from := ServedTakes(p.db, ctx, line, route);
    ShiftUsable(p.db.stock.rows, served.stock.rows, from, line.quantity, lot, warehouse);
  }

  lemma ShiftUsable(before: seq<Row>, after: seq<Row>, from: Key, quantity: real, lot: Lot, warehouse: Id)
    requires Shifts(before, after, from, -quantity) && (from.status == Available || from.status == Reserved)
    ensures OnHand(after, UsableIn(lot, warehouse, Available)) + OnHand(after, UsableIn(lot, warehouse, Reserved))
         == OnHand(before, UsableIn(lot, warehouse, Available)) + OnHand(before, UsableIn(lot, warehouse, Reserved))
             - (if from.lot == lot && from.warehouse == warehouse then quantity else 0.0)
  {
  }

  lemma {:induction false} LinesIssuedExact(p: Progress, ctx: Context, lines: seq<IssueLine>, lot: Lot, warehouse: Id)
    requires Core(p.db) && LinesIssued(p, ctx, lines).Ok?
    ensures Usable(LinesIssued(p, ctx, lines).value.db, lot, warehouse)
         == Usable(p.db, lot, warehouse) - (if ctx.warehouse == warehouse then Asked(lines, ctx.company, lot) else 0.0)
    decreases |lines|
  {
    if lines == [] {
    } else {
      var q := LineIssued(p, ctx, lines[0]).value;
      LineIssuedKeeps(p, ctx, lines[0]);
      LineIssuedExact(p, ctx, lines[0], lot, warehouse);
      LinesIssuedExact(q, ctx, lines[1..], lot, warehouse);
    }
  }

  /** A posted issue lowers the usable stock of every lot in its warehouse by exactly
      what its lines ask of it, and of no lot anywhere else. */
  lemma IssueIsExact(db: Db, company: Id, dto: IssueInput, policy: Policy, mayOverride: bool, lot: Lot, warehouse: Id)
    requires Core(db) && IssuePosted(db, company, dto, policy, mayOverride).Ok?
    ensures Usable(IssuePosted(db, company, dto, policy, mayOverride).value.db, lot, warehouse)
         == Usable(db, lot, warehouse) - (if dto.warehouse == warehouse then Asked(dto.lines, company, lot) else 0.0)
  {
    var ctx := IssueContext(db, company, dto, policy, mayOverride).value;
    LinesIssuedExact(Progress(db, []), ctx, dto.lines, lot, warehouse);
  }

  // ----- FIFO discipline -----

  /** Stock the snapshot holds available of the line's material in the issue's warehouse. */
  predicate OnOffer(ctx: Context, line: IssueLine, r: Row) {
    FifoEngine.Selected(r, ctx.company, line.material, Some(ctx.warehouse), Available)
  }

  /** Nothing is on offer, or a row of the line's batch is and none strictly older. Expiry
      counts for materials of the company with a shelf life, when it enables that. */
  ghost predicate OldestInSnapshot(ctx: Context, line: IssueLine) {
    var rows, batches, materials := ctx.snapshot.stock.rows, ctx.snapshot.stock.batches, ctx.snapshot.masters.materials;
    var fefo := ctx.fefoEnabled && line.material in materials && materials[line.material].company == ctx.company
      && materials[line.material].shelfLifeDays.Some?;
    || (forall r | r in rows :: !OnOffer(ctx, line, r))
    || (exists r | r in rows && r.key.lot.batch == line.batch :: OnOffer(ctx, line, r)
          && forall o | o in rows && OnOffer(ctx, line, o) ::
               !FifoEngine.StrictlyOlder(FifoEngine.BatchOf(batches, o.key.lot.batch),
                                         FifoEngine.BatchOf(batches, line.batch), fefo))
  }

  lemma OldestByFields(ctx: Context, line: IssueLine, r: Row)
    requires var s := ctx.snapshot.stock;
             var fefo := FifoEngine.UsesFefo(ctx.snapshot.masters, ctx.company, line.material, ctx.fefoEnabled);
             var w := FifoEngine.StockOf(ctx.company, line.material, Some(ctx.warehouse), Available);
             r in s.rows && r.key.lot.batch == line.batch && FifoEngine.OldestOf(s, fefo, w, r)
    ensures OldestInSnapshot(ctx, line)
  {
    var s := ctx.snapshot.stock;
    var fefo := FifoEngine.UsesFefo(ctx.snapshot.masters, ctx.company, line.material, ctx.fefoEnabled);
    forall o | o in s.rows && OnOffer(ctx, line, o)
      ensures !FifoEngine.StrictlyOlder(FifoEngine.BatchOf(s.batches, o.key.lot.batch),
                                        FifoEngine.BatchOf(s.batches, line.batch), fefo)
    {
      assert FifoEngine.Older(s.batches, fefo)(r, o);
      FifoEngine.OlderIsNotYounger(FifoEngine.BatchOf(s.batches, line.batch),
                                   FifoEngine.BatchOf(s.batches, o.key.lot.batch));
    }
    assert OnOffer(ctx, line, r);
  }

  /** How a line may have been served. */
  ghost predicate RouteDisciplined(ctx: Context, line: IssueLine, route: Route) {
    match route
    case FromReserved(_) => true
    case FromAvailable(_, fifoOverride) =>
      && (!fifoOverride ==> OldestInSnapshot(ctx, line))
      && (fifoOverride ==> ctx.allowOverride && ctx.mayOverride)
  }

  lemma ChosenRouteDisciplined(db: Db, ctx: Context, line: IssueLine)
    requires line.quantity > 0.0 && ChosenRoute(db, ctx, line).Ok?
    ensures RouteDisciplined(ctx, line, ChosenRoute(db, ctx, line).value)
  {
    var fefo := FifoEngine.UsesFefo(ctx.snapshot.masters, ctx.company, line.material, ctx.fefoEnabled);
    var w := FifoEngine.StockOf(ctx.company, line.material, Some(ctx.warehouse), Available);
    FifoEngine.HeadIsOldest(ctx.snapshot.stock, fefo, w, line.quantity);
    if Expected(ctx, line) == Some(line.batch) {
      var r :| r in ctx.snapshot.stock.rows && r.key.lot.batch == line.batch
        && FifoEngine.OldestOf(ctx.snapshot.stock, fefo, w, r);
      OldestByFields(ctx, line, r);
    } else if Expected(ctx, line).None? {
      assert forall r | r in ctx.snapshot.stock.rows :: w.Hits(r.key) && r.quantity > 0.0 <==> OnOffer(ctx, line, r);
    }
  }

  /** The issue is for a request, or something active is reserved of the line's batch or of no
      batch, for the issue's order if it has one. */
  predicate ReservedFirst(db: Db, ctx: Context, line: IssueLine) {
    || ctx.request.Some?
    || exists i | 0 <= i < |db.reservations| ::
         var r := db.reservations[i];
         && r.status == Active && r.company == ctx.company && r.material == line.material
         && (r.batch.None? || r.batch.value == line.batch)
         && (ctx.productionOrder.Some? ==> r.productionOrder == ctx.productionOrder)
  }

  /** The batch named is the first one suggested from the snapshot's available stock, or none is. */
  predicate FirstSuggested(ctx: Context, line: IssueLine) {
    var picks := FifoEngine.Suggest(ctx.snapshot, ctx.company, line.material, line.quantity, Some(ctx.warehouse),
        Available, ctx.fefoEnabled).picks;
    picks == [] || picks[0].row.key.lot.batch == line.batch
  }

  /** A line finds a route exactly when one reserved row it may use holds its quantity, or one
      available row does and its batch is the one suggested or a permitted override; reserved
      stock goes first, and the route leads to such a row. */
  lemma RoutedExactlyWhen(db: Db, ctx: Context, line: IssueLine)
    ensures var r := ChosenRoute(db, ctx, line);
            var reserved := ReservedFirst(db, ctx, line) && HeldInOneRow(db.stock.rows, ctx, line, Reserved);
            && (r.Ok? <==>
                  || reserved
                  || (HeldInOneRow(db.stock.rows, ctx, line, Available)
                      && (FirstSuggested(ctx, line) || (ctx.allowOverride && ctx.mayOverride))))
            && (r.Ok? ==> RouteServes(db.stock.rows, ctx, line, r.value) && (r.value.FromReserved? <==> reserved))
            && (r.Ok? && r.value.FromAvailable? ==> (r.value.fifoOverride <==> !FirstSuggested(ctx, line)))
            && (r.Err? ==>
                  var override := ctx.allowOverride && ctx.mayOverride;
                  r.error == if FirstSuggested(ctx, line) || override then InsufficientStock
                             else if ctx.allowOverride then Forbidden else FifoViolation)
  {
    assert PrefersReserved(db, ctx, line) <==> ReservedFirst(db, ctx, line);
    FoundExactlyWhen(db.stock.rows, ctx, line, Reserved);
    FoundExactlyWhen(db.stock.rows, ctx, line, Available);
  }

  lemma FoundExactlyWhen(rows: seq<Row>, ctx: Context, line: IssueLine, status: Status)
    ensures var i := Find(rows, StockFor(ctx, line, status), Some(line.quantity));
            && (i < |rows| <==> HeldInOneRow(rows, ctx, line, status))
            && (i < |rows| ==> Holds(rows[i], ctx, line, status))
  {
    assert forall r: Row ::
        StockFor(ctx, line, status).Hits(r.key) && r.quantity >= line.quantity <==> Holds(r, ctx, line, status);
  }

  /** A line is issued exactly when its quantity is positive and it finds a route: once found,
      a route always serves. */
  lemma LineIssuedExactlyWhen(p: Progress, ctx: Context, line: IssueLine)
    requires Agrees(p.db.stock)
    ensures LineIssued(p, ctx, line).Ok? <==> line.quantity > 0.0 && ChosenRoute(p.db, ctx, line).Ok?
  {
    var r := ChosenRoute(p.db, ctx, line);
    RoutedExactlyWhen(p.db, ctx, line);
    if r.Ok? {
      RouteAlwaysServes(p.db, ctx, line, r.value);
    }
  }

  lemma RouteAlwaysServes(db: Db, ctx: Context, line: IssueLine, route: Route)
    requires Agrees(db.stock) && RouteServes(db.stock.rows, ctx, line, route)
    ensures Served(db, ctx, line, route).Ok? <==> line.quantity > 0.0
  {
    match route
    case FromReserved(location) =>
      var i :| 0 <= i < |db.stock.rows| && db.stock.rows[i].key.location == location
        && Holds(db.stock.rows[i], ctx, line, Reserved);
      ConsumedExactlyWhen(db, Consumption(ctx, line, location));
    case FromAvailable(key, _) =>
      var i :| 0 <= i < |db.stock.rows| && db.stock.rows[i].key == key && Holds(db.stock.rows[i], ctx, line, Available);
      RowAt(db.stock, i);
      DeductedExactlyWhen(db.stock, key, line.quantity, Issued);
  }

  /** Lines only append: routes and issue items of earlier ones stay. */
  lemma {:induction false} LinesIssuedAppend(p: Progress, ctx: Context, lines: seq<IssueLine>)
    requires LinesIssued(p, ctx, lines).Ok?
    ensures var q := LinesIssued(p, ctx, lines).value;
            && |q.routes| == |p.routes| + |lines| && p.routes <= q.routes
            && |q.db.issueItems| == |p.db.issueItems| + |lines| && p.db.issueItems <= q.db.issueItems
    decreases |lines|
  {
    if lines == [] {
    } else {
      LinesIssuedAppend(LineIssued(p, ctx, lines[0]).value, ctx, lines[1..]);
    }
  }

  /** The state inside the transaction from which the i-th line is issued. */
  lemma {:induction false} LinesIssuedFrom(
      p: Progress, ctx: Context, lines: seq<IssueLine>, i: nat) returns (during: Progress)
    requires LinesIssued(p, ctx, lines).Ok? && i <= |lines|
    ensures LinesIssued(during, ctx, lines[i..]) == LinesIssued(p, ctx, lines)
    ensures |during.routes| == |p.routes| + i && |during.db.issueItems| == |p.db.issueItems| + i
    decreases i
  {
    if i == 0 {
      during := p;
      assert lines[0..] == lines;
    } else {
      during := LinesIssuedFrom(LineIssued(p, ctx, lines[0]).value, ctx, lines[1..], i - 1);
      assert lines[1..][i - 1..] == lines[i..];
    }
  }

  /** What the i-th line appended is still there at the end. */
  lemma LineIssuedAt(p: Progress, ctx: Context, lines: seq<IssueLine>, i: nat) returns (during: Progress)
    requires LinesIssued(p, ctx, lines).Ok? && i < |lines|
    ensures LineIssued(during, ctx, lines[i]).Ok?
    ensures |during.routes| == |p.routes| + i && |during.db.issueItems| == |p.db.issueItems| + i
    ensures LineIssued(during, ctx, lines[i]).value.routes <= LinesIssued(p, ctx, lines).value.routes
    ensures LineIssued(during, ctx, lines[i]).value.db.issueItems <= LinesIssued(p, ctx, lines).value.db.issueItems
  {
    during := LinesIssuedFrom(p, ctx, lines, i);
    LinesIssuedAppend(LineIssued(during, ctx, lines[i..][0]).value, ctx, lines[i..][1..]);
  }

  lemma LineIssuedRecords(p: Progress, ctx: Context, line: IssueLine) returns (route: Route, q: Progress)
    requires LineIssued(p, ctx, line).Ok?
    ensures LineIssued(p, ctx, line) == Ok(q) && RouteDisciplined(ctx, line, route)
    ensures q.routes == p.routes + [route] && q.db.issueItems == p.db.issueItems + [ItemOf(ctx, line, route)]
  {
    var served;
    route, served := LineIssuedIs(p, ctx, line);
    q := LineIssued(p, ctx, line).value;
    ChosenRouteDisciplined(p.db, ctx, line);
  }

  lemma InPrefix<T>(a: seq<T>, x: T, b: seq<T>)
    requires a + [x] <= b
    ensures |a| < |b| && b[|a|] == x
  {
    assert b[|a|] == (a + [x])[|a|];
  }

  lemma LineServedAt(db: Db, ctx: Context, lines: seq<IssueLine>, i: nat, q: Progress)
    requires LinesIssued(Progress(db, []), ctx, lines) == Ok(q) && i < |lines|
    ensures |q.routes| == |lines| && |db.issueItems| + i < |q.db.issueItems|
    ensures RouteDisciplined(ctx, lines[i], q.routes[i])
    ensures q.db.issueItems[|db.issueItems| + i] == ItemOf(ctx, lines[i], q.routes[i])
  {
    LinesIssuedAppend(Progress(db, []), ctx, lines);
    var during := LineIssuedAt(Progress(db, []), ctx, lines, i);
    var route, next := LineIssuedRecords(during, ctx, lines[i]);
    InPrefix(during.routes, route, q.routes);
    InPrefix(during.db.issueItems, ItemOf(ctx, lines[i], route), q.db.issueItems);
  }

  /** The order an issue names, or else the one of its request. */
  function OrderOfIssue(db: Db, dto: IssueInput): Option<Id> {
    if dto.productionOrder.None? && dto.request.Some? && dto.request.value < |db.requests|
    then db.requests[dto.request.value].productionOrder
    else dto.productionOrder
  }

  lemma IssuePostedIs(db: Db, company: Id, dto: IssueInput, policy: Policy, mayOverride: bool)
    returns (ctx: Context, q: Progress)
    requires IssuePosted(db, company, dto, policy, mayOverride).Ok?
    ensures IssueContext(db, company, dto, policy, mayOverride) == Ok(ctx)
    ensures ctx == Context(company, dto.warehouse, OrderOfIssue(db, dto), dto.request, dto.allowFifoOverride,
                     mayOverride, policy.fefoEnabled, db)
    ensures LinesIssued(Progress(db, []), ctx, dto.lines) == Ok(q)
    ensures var p := IssuePosted(db, company, dto, policy, mayOverride).value;
            p.routes == q.routes && p.db.issueItems == q.db.issueItems
  {
    ctx := IssueContext(db, company, dto, policy, mayOverride).value;
    q := LinesIssued(Progress(db, []), ctx, dto.lines).value;
  }

  /** Every line of a posted issue is served from reserved stock, or recorded as an
      override that was asked for and permitted, or takes the oldest batch the
      database held before the issue (if it held any). */
  lemma IssueFollowsFifo(db: Db, company: Id, dto: IssueInput, policy: Policy, mayOverride: bool, i: nat)
    requires IssuePosted(db, company, dto, policy, mayOverride).Ok? && i < |dto.lines|
    ensures var ctx := IssueContext(db, company, dto, policy, mayOverride).value;
            var p := IssuePosted(db, company, dto, policy, mayOverride).value;
            var line := dto.lines[i];
            && |p.routes| == |dto.lines|
            && ctx == Context(company, dto.warehouse, OrderOfIssue(db, dto), dto.request, dto.allowFifoOverride,
                              mayOverride, policy.fefoEnabled, db)
            && RouteDisciplined(ctx, line, p.routes[i])
            && |db.issueItems| + i < |p.db.issueItems|
            && p.db.issueItems[|db.issueItems| + i]
                == IssueItem(Lot(company, line.material, line.batch), line.quantity,
                             p.routes[i].FromAvailable? && p.routes[i].fifoOverride, dto.request)
  {
    var ctx, q := IssuePostedIs(db, company, dto, policy, mayOverride);
    LineServedAt(db, ctx, dto.lines, i, q);
  }

  /** What an issue needs before its lines: a warehouse of the company, lines, an open request of
      the company if it names one, and an order where policy asks for one. */
  predicate Admissible(db: Db, company: Id, dto: IssueInput, policy: Policy) {
    && (company, dto.warehouse) in db.masters.warehouses && dto.lines != []
    && (dto.request.Some? ==>
          && dto.request.value < |db.requests| && db.requests[dto.request.value].company == company
          && db.requests[dto.request.value].status != Fulfilled
          && db.requests[dto.request.value].status != RequestStatus.Cancelled)
    && (policy.issueRequiresProductionOrder ==> OrderOfIssue(db, dto).Some?)
  }

  /** Each line in turn asks something and finds a route. */
  predicate EachRouted(p: Progress, ctx: Context, lines: seq<IssueLine>)
    decreases |lines|
  {
    lines != [] ==>
      && lines[0].quantity > 0.0 && ChosenRoute(p.db, ctx, lines[0]).Ok?
      && (LineIssued(p, ctx, lines[0]).Ok? ==> EachRouted(LineIssued(p, ctx, lines[0]).value, ctx, lines[1..]))
  }

  lemma {:induction false} LinesIssuedExactlyWhen(p: Progress, ctx: Context, lines: seq<IssueLine>)
    requires Core(p.db)
    ensures LinesIssued(p, ctx, lines).Ok? <==> EachRouted(p, ctx, lines)
    decreases |lines|
  {
    if lines == [] {
    } else {
      LineIssuedExactlyWhen(p, ctx, lines[0]);
      if LineIssued(p, ctx, lines[0]).Ok? {
        LineIssuedKeeps(p, ctx, lines[0]);
        LinesIssuedExactlyWhen(LineIssued(p, ctx, lines[0]).value, ctx, lines[1..]);
      }
    }
  }

  lemma ContextExactlyWhen(db: Db, company: Id, dto: IssueInput, policy: Policy, mayOverride: bool)
    ensures var r := IssueContext(db, company, dto, policy, mayOverride);
            && (r.Ok? <==> Admissible(db, company, dto, policy))
            && (r.Ok? ==>
                  r.value == Context(company, dto.warehouse, OrderOfIssue(db, dto), dto.request, dto.allowFifoOverride,
                                     mayOverride, policy.fefoEnabled, db))
  {
  }

  /** An issue is posted exactly when it is admissible and each of its lines, on the stock the
      earlier ones left, asks something and finds a route. */
  lemma IssuePostedExactlyWhen(db: Db, company: Id, dto: IssueInput, policy: Policy, mayOverride: bool)
    requires Core(db)
    ensures IssuePosted(db, company, dto, policy, mayOverride).Ok? <==>
              && Admissible(db, company, dto, policy)
              && EachRouted(Progress(db, []),
                            Context(company, dto.warehouse, OrderOfIssue(db, dto), dto.request, dto.allowFifoOverride,
                                    mayOverride, policy.fefoEnabled, db), dto.lines)
  {
    var ctx := IssueContext(db, company, dto, policy, mayOverride);
    ContextExactlyWhen(db, company, dto, policy, mayOverride);
    if ctx.Ok? {
      LinesIssuedExactlyWhen(Progress(db, []), ctx.value, dto.lines);
    }
  }

  // ----- reservations under an issue line -----

  /** Active reservations equal reserved stock, lot by lot. */
  ghost predicate Tight(db: Db) {
    forall lot: Lot :: Slack(db, lot) == 0.0
  }

  /** A line served from reserved stock asks no more than the matching reservations hold. */
  predicate LineCovered(db: Db, ctx: Context, line: IssueLine) {
    var route := ChosenRoute(db, ctx, line);
    route.Ok? && route.value.FromReserved? ==>
      line.quantity <= Wanted(Ranked(db.reservations, LotOf(ctx, line), ctx.productionOrder))
  }

  predicate LinesCovered(p: Progress, ctx: Context, lines: seq<IssueLine>)
    decreases |lines|
  {
    lines != [] && LineIssued(p, ctx, lines[0]).Ok? ==>
      && LineCovered(p.db, ctx, lines[0])
      && LinesCovered(LineIssued(p, ctx, lines[0]).value, ctx, lines[1..])
  }

  /** What a line takes from reserved stock beyond what matching reservations hold. */
  function Uncovered(db: Db, ctx: Context, line: IssueLine, route: Route): real {
    if route.FromReserved? then
      Max(0.0, line.quantity - Wanted(Ranked(db.reservations, LotOf(ctx, line), ctx.productionOrder)))
    else 0.0
  }

  lemma ServedSlack(db: Db, ctx: Context, line: IssueLine, route: Route, lot: Lot)
    requires Agrees(db.stock) && OnBatches(db.reservations)
    requires RouteFits(ctx, line, route) && Served(db, ctx, line, route).Ok?
    ensures Slack(Served(db, ctx, line, route).value, lot)
         == Slack(db, lot) + (if lot == LotOf(ctx, line) then Uncovered(db, ctx, line, route) else 0.0)
  {
    match route
    case FromReserved(location) => ConsumedSlack(db, Consumption(ctx, line, location), lot);
    case FromAvailable(key, _) => AvailableSlack(db, key, line.quantity, lot);
  }

  lemma AvailableSlack(db: Db, key: Key, quantity: real, lot: Lot)
    requires Agrees(db.stock) && key.status == Available && Deducted(db.stock, key, quantity, Issued).Ok?
    ensures Slack(db.(stock := Deducted(db.stock, key, quantity, Issued).value), lot) == Slack(db, lot)
  {
    DeductedAgrees(db.stock, key, quantity, Issued);
  }

  lemma LineIssuedSlack(p: Progress, ctx: Context, line: IssueLine, lot: Lot)
    requires Core(p.db) && LineIssued(p, ctx, line).Ok?
    ensures Slack(LineIssued(p, ctx, line).value.db, lot)
         == Slack(p.db, lot)
            + (if lot == LotOf(ctx, line) then Uncovered(p.db, ctx, line, ChosenRoute(p.db, ctx, line).value) else 0.0)
  {
    var route, served := LineIssuedIs(p, ctx, line);
    ChosenFits(p.db, ctx, line);
    ServedSlack(p.db, ctx, line, route, lot);
  }

  /** Issuing a line keeps active reservations equal to reserved stock exactly when
      the line is covered. */
  lemma LineTightExactlyWhen(p: Progress, ctx: Context, line: IssueLine)
    requires Core(p.db) && LineIssued(p, ctx, line).Ok? && Tight(p.db)
    ensures Tight(LineIssued(p, ctx, line).value.db) <==> LineCovered(p.db, ctx, line)
  {
    var t := LineIssued(p, ctx, line).value.db;
    forall lot: Lot
      ensures LineCovered(p.db, ctx, line) ==> Slack(t, lot) == 0.0
    {
      LineIssuedSlack(p, ctx, line, lot);
    }
    LineIssuedSlack(p, ctx, line, LotOf(ctx, line));
  }

  lemma {:induction false} LinesTightExactlyWhen(p: Progress, ctx: Context, lines: seq<IssueLine>)
    requires Core(p.db) && LinesIssued(p, ctx, lines).Ok? && Tight(p.db)
    ensures Tight(LinesIssued(p, ctx, lines).value.db) <==> LinesCovered(p, ctx, lines)
    decreases |lines|
  {
    if lines == [] {
    } else {
      var next := LineIssued(p, ctx, lines[0]).value;
      LineTightExactlyWhen(p, ctx, lines[0]);
      LineIssuedKeeps(p, ctx, lines[0]);
      if LineCovered(p.db, ctx, lines[0]) {
        LinesTightExactlyWhen(next, ctx, lines[1..]);
      } else {
        LinesIssuedKeep(next, ctx, lines[1..]);
      }
    }
  }

  /** Whether every line of a posted issue is covered when it is served. */
  predicate IssueCovered(db: Db, company: Id, dto: IssueInput, policy: Policy, mayOverride: bool) {
    IssuePosted(db, company, dto, policy, mayOverride).Ok? ==>
      LinesCovered(Progress(db, []), IssueContext(db, company, dto, policy, mayOverride).value, dto.lines)
  }

  /** A posted issue keeps active reservations equal to reserved stock exactly when
      each of its lines is covered. */
  lemma IssueTightExactlyWhen(db: Db, company: Id, dto: IssueInput, policy: Policy, mayOverride: bool)
    requires Core(db) && IssuePosted(db, company, dto, policy, mayOverride).Ok? && Tight(db)
    ensures Tight(IssuePosted(db, company, dto, policy, mayOverride).value.db)
            <==> IssueCovered(db, company, dto, policy, mayOverride)
  {
    var ctx := IssueContext(db, company, dto, policy, mayOverride).value;
    var p := LinesIssued(Progress(db, []), ctx, dto.lines).value;
    var t := IssuePosted(db, company, dto, policy, mayOverride).value.db;
    LinesTightExactlyWhen(Progress(db, []), ctx, dto.lines);
    SameStore(p.db, t);
    assert Tight(t) <==> Tight(p.db) by {
      forall lot: Lot
        ensures Slack(t, lot) == Slack(p.db, lot)
      {
      }
    }
  }

  /** A line is covered exactly when it asks no more than what is reserved for the order
      it is issued for; without an order it always is, for reserved stock is backed. */
  lemma CoveredExactlyWhen(db: Db, ctx: Context, line: IssueLine)
    requires Core(db)
    ensures var route := ChosenRoute(db, ctx, line);
            LineCovered(db, ctx, line) <==>
              (ctx.productionOrder.Some? && route.Ok? && route.value.FromReserved?
               ==> line.quantity <= HeldFor(db.reservations, LotOf(ctx, line), ctx.productionOrder))
  {
    var lot := LotOf(ctx, line);
    WantedIsHeldFor(db.reservations, lot, ctx.productionOrder);
    if ctx.productionOrder.None? {
      var i := Find(db.stock.rows, StockFor(ctx, line, Reserved), Some(line.quantity));
      if i < |db.stock.rows| {
        RowWithinSum(db.stock.rows, |db.stock.batches|, i, OfLotIn(lot, Reserved));
        assert Slack(db, lot) >= 0.0;
      }
    }
  }

  lemma {:induction false} LinesWithoutOrder(p: Progress, ctx: Context, lines: seq<IssueLine>)
    requires Core(p.db) && ctx.productionOrder.None?
    ensures LinesCovered(p, ctx, lines)
    decreases |lines|
  {
    if lines == [] || LineIssued(p, ctx, lines[0]).Err? {
    } else {
      CoveredExactlyWhen(p.db, ctx, lines[0]);
      LineIssuedKeeps(p, ctx, lines[0]);
      LinesWithoutOrder(LineIssued(p, ctx, lines[0]).value, ctx, lines[1..]);
    }
  }

  /** The issue names a production order, or inherits one from its request. */
  predicate NamesOrder(db: Db, dto: IssueInput) {
    || dto.productionOrder.Some?
    || (dto.request.Some? && dto.request.value < |db.requests| && db.requests[dto.request.value].productionOrder.Some?)
  }

  /** Only an issue for a production order can use up reservations that are not its own. */
  lemma WithoutOrderCovered(db: Db, company: Id, dto: IssueInput, policy: Policy, mayOverride: bool)
    requires Core(db) && !NamesOrder(db, dto)
    ensures IssueCovered(db, company, dto, policy, mayOverride)
  {
    if IssuePosted(db, company, dto, policy, mayOverride).Ok? {
      LinesWithoutOrder(Progress(db, []), IssueContext(db, company, dto, policy, mayOverride).value, dto.lines);
    }
  }

  // ----- request progress -----

  function IssuedFor(items: seq<IssueItem>, request: nat, material: Id): real {
    if items == [] then 0.0
    else
      var last := items[|items| - 1];
      IssuedFor(items[..|items| - 1], request, material)
      + (if last.request == Some(request) && last.lot.material == material then last.quantity else 0.0)
  }

  function CreditOf(lines: seq<RequestLine>, request: nat, material: Id): real {
    if lines == [] then 0.0
    else
      var last := lines[|lines| - 1];
      CreditOf(lines[..|lines| - 1], request, material)
      + (if last.request == request && last.material == material then last.issued else 0.0)
  }

  predicate Requests(lines: seq<RequestLine>, request: nat, material: Id) {
    exists i | 0 <= i < |lines| :: lines[i].request == request && lines[i].material == material
  }

  /** Whatever was issued of a requested material stands on the request's lines. */
  ghost predicate Progressed(db: Db) {
    && (forall i | 0 <= i < |db.requestLines| :: db.requestLines[i].request < |db.requests|)
    && (forall i | 0 <= i < |db.issueItems| && db.issueItems[i].request.Some? ::
          db.issueItems[i].request.value < |db.requests|)
    && (forall r: nat, m: Id | Requests(db.requestLines, r, m) ::
          CreditOf(db.requestLines, r, m) == IssuedFor(db.issueItems, r, m))
  }

  lemma {:induction false} CreditUpdate(lines: seq<RequestLine>, i: nat, issued: real, request: nat, material: Id)
    requires i < |lines|
    ensures CreditOf(lines[i := lines[i].(issued := issued)], request, material)
         == CreditOf(lines, request, material)
            + (if lines[i].request == request && lines[i].material == material then issued - lines[i].issued else 0.0)
  {
    var n := |lines| - 1;
    var line := lines[i].(issued := issued);
    if i == n {
      assert lines[i := line][..n] == lines[..n];
    } else {
      CreditUpdate(lines[..n], i, issued, request, material);
      assert lines[i := line][..n] == lines[..n][i := line];
    }
  }

  lemma CreditedRequests(lines: seq<RequestLine>, request: Option<nat>, material: Id, quantity: real, r: nat, m: Id)
    ensures var t := Credited(lines, request, material, quantity);
            && |t| == |lines|
            && (forall i | 0 <= i < |lines| :: t[i].request == lines[i].request)
            && (Requests(t, r, m) <==> Requests(lines, r, m))
            && (Requests(lines, r, m)
                ==> CreditOf(t, r, m)
                    == CreditOf(lines, r, m) + (if request == Some(r) && material == m then quantity else 0.0))
  {
    var t := Credited(lines, request, material, quantity);
    forall i | 0 <= i < |lines|
      ensures t[i].request == lines[i].request && t[i].material == lines[i].material
    {
    }
    if request.Some? {
      var i := RequestLineFrom(lines, request.value, material, 0);
      if i < |lines| {
        CreditUpdate(lines, i, lines[i].issued + quantity, r, m);
      }
    }
  }

  lemma LineIssuedProgresses(p: Progress, ctx: Context, line: IssueLine)
    requires Progressed(p.db) && LineIssued(p, ctx, line).Ok?
              && (ctx.request.Some? ==> ctx.request.value < |p.db.requests|)
    ensures var t := LineIssued(p, ctx, line).value.db;
            Progressed(t) && |t.requests| == |p.db.requests|
  {
    var db := p.db;
    var route := ChosenRoute(db, ctx, line).value;
    var t := LineIssued(p, ctx, line).value.db;
    var item := ItemOf(ctx, line, route);
    assert t.issueItems == db.issueItems + [item]
        && t.requestLines == Credited(db.requestLines, ctx.request, line.material, line.quantity);
    CreditedRequests(db.requestLines, ctx.request, line.material, line.quantity, 0, 0);
    forall r: nat, m: Id | Requests(t.requestLines, r, m)
      ensures CreditOf(t.requestLines, r, m) == IssuedFor(t.issueItems, r, m)
    {
      CreditedRequests(db.requestLines, ctx.request, line.material, line.quantity, r, m);
      assert t.issueItems[..|db.issueItems|] == db.issueItems;
    }
  }

  lemma {:induction false} LinesIssuedProgress(p: Progress, ctx: Context, lines: seq<IssueLine>)
    requires Progressed(p.db) && LinesIssued(p, ctx, lines).Ok?
              && (ctx.request.Some? ==> ctx.request.value < |p.db.requests|)
    ensures var t := LinesIssued(p, ctx, lines).value.db;
            Progressed(t) && |t.requests| == |p.db.requests|
    decreases |lines|
  {
    if lines == [] {
    } else {
      LineIssuedProgresses(p, ctx, lines[0]);
      LinesIssuedProgress(LineIssued(p, ctx, lines[0]).value, ctx, lines[1..]);
    }
  }

  /** An issue credits its request with exactly what it issues of requested materials. */
  lemma IssuePostedProgresses(db: Db, company: Id, dto: IssueInput, policy: Policy, mayOverride: bool)
    requires Progressed(db) && IssuePosted(db, company, dto, policy, mayOverride).Ok?
    ensures Progressed(IssuePosted(db, company, dto, policy, mayOverride).value.db)
  {
    var ctx := IssueContext(db, company, dto, policy, mayOverride).value;
    LinesIssuedProgress(Progress(db, []), ctx, dto.lines);
  }

  /** The request an issue names is fulfilled when all its lines have what they asked for,
      partial when they do not but some have something, pending when none has; no other
      request and nothing else of it changes. */
  lemma IssueSetsStatus(db: Db, company: Id, dto: IssueInput, policy: Policy, mayOverride: bool, r: nat)
    requires IssuePosted(db, company, dto, policy, mayOverride).Ok? && r < |db.requests|
    ensures var t := IssuePosted(db, company, dto, policy, mayOverride).value.db;
            var done := forall i | 0 <= i < |t.requestLines| && t.requestLines[i].request == r ::
                t.requestLines[i].issued >= t.requestLines[i].requested;
            var started := exists i | 0 <= i < |t.requestLines| ::
                t.requestLines[i].request == r && t.requestLines[i].issued > 0.0;
            && |t.requests| == |db.requests|
            && (dto.request != Some(r) ==> t.requests[r] == db.requests[r])
            && (dto.request == Some(r) ==>
                  && t.requests[r] == db.requests[r].(status := t.requests[r].status)
                  && (t.requests[r].status == Fulfilled <==> done)
                  && (t.requests[r].status == Partial <==> !done && started)
                  && (t.requests[r].status == Pending <==> !done && !started))
  {
    var ctx := IssueContext(db, company, dto, policy, mayOverride).value;
    LinesKeepRequests(Progress(db, []), ctx, dto.lines);
  }

  lemma {:induction false} LinesKeepRequests(p: Progress, ctx: Context, lines: seq<IssueLine>)
    requires LinesIssued(p, ctx, lines).Ok?
    ensures LinesIssued(p, ctx, lines).value.db.requests == p.db.requests
    decreases |lines|
  {
    if lines == [] {
    } else {
      LinesKeepRequests(LineIssued(p, ctx, lines[0]).value, ctx, lines[1..]);
    }
  }

  // ----- returns and transfers -----

  lemma LineReturnedKeeps(db: Db, company: Id, warehouse: Id, line: ReturnLine)
    requires Core(db) && LineReturned(db, company, warehouse, line).Ok?
    ensures var t := LineReturned(db, company, warehouse, line).value;
            Keeps(db, t)
  {
    var t := LineReturned(db, company, warehouse, line).value;
    var key := ReturnKey(company, warehouse, line);
    AddedChanges(db.stock, key, line.quantity, Returned);
    forall other: Lot
      ensures Documented(t, other) == Documented(db, other) + (if other == key.lot then line.quantity else 0.0)
    {
    }
    ChangesKeepCore(db, t, key.lot, line.quantity, 0.0, 0.0);
    ChangesKeepHold(db, t, key.lot, line.quantity, 0.0);
    ChangesKeepSlack(db, t, key.lot, line.quantity, 0.0, 0.0);
  }

  lemma {:induction false} LinesReturnedKeep(db: Db, company: Id, warehouse: Id, lines: seq<ReturnLine>)
    requires Core(db) && LinesReturned(db, company, warehouse, lines).Ok?
    ensures var t := LinesReturned(db, company, warehouse, lines).value;
            Keeps(db, t)
    decreases |lines|
  {
    if lines == [] {
    } else {
      LineReturnedKeeps(db, company, warehouse, lines[0]);
      LinesReturnedKeep(LineReturned(db, company, warehouse, lines[0]).value, company, warehouse, lines[1..]);
    }
  }

  /** Transfers move any status, reserved and held stock too, without changing what
      a lot has of it. */
  lemma LineTransferredKeeps(db: Db, company: Id, from: Id, to: Id, line: TransferLine)
    requires Core(db) && LineTransferred(db, company, from, to, line).Ok?
    ensures var t := LineTransferred(db, company, from, to, line).value;
            Keeps(db, t)
  {
    var t := LineTransferred(db, company, from, to, line).value;
    var source := TransferKey(company, from, line.fromLocation, line);
    MovedChanges(db.stock, source, TransferKey(company, to, line.toLocation, line), line.quantity, TransferOut,
        TransferIn);
    assert Changes(db.stock.rows, t.stock.rows, source.lot, 0.0, 0.0, 0.0);
    ChangesKeepCore(db, t, source.lot, 0.0, 0.0, 0.0);
    ChangesKeepHold(db, t, source.lot, 0.0, 0.0);
    ChangesKeepSlack(db, t, source.lot, 0.0, 0.0, 0.0);
  }

  lemma {:induction false} LinesTransferredKeep(db: Db, company: Id, from: Id, to: Id, lines: seq<TransferLine>)
    requires Core(db) && LinesTransferred(db, company, from, to, lines).Ok?
    ensures var t := LinesTransferred(db, company, from, to, lines).value;
            Keeps(db, t)
    decreases |lines|
  {
    if lines == [] {
    } else {
      LineTransferredKeeps(db, company, from, to, lines[0]);
      LinesTransferredKeep(LineTransferred(db, company, from, to, lines[0]).value, company, from, to, lines[1..]);
    }
  }
}
