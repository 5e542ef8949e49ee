/** Concrete runs from an empty database in which the code falls short: stock issued that was
    reserved for another order, picks drawn from the wrong row, more damaged than received,
    stock left on hold, and counters overwritten. */
module Cases {
  import opened Base
  import opened Tables
  import opened Sorting
  import opened StockEngine
  import opened ReservationEngine
  import opened Invariants
  import opened Workflow
  import opened Grn
  import opened GrnLaws
  import opened Issue
  import opened IssueLaws
  import opened Production
  import opened ProductionLaws
  import opened AutoReserve
  import opened AnyOrder
  import opened Runs
  import FifoEngine

  // ----- stock reserved for another order -----

  const LOT := Lot(0, 0, 0)
  const SHELF := Key(LOT, 0, None, Available)
  const KEPT := SHELF.(status := Reserved)

  /** A finished good received. */
  function Finish(quantity: real): Op {
    FinishGoods(0, 1, 0, 0, quantity, None, None, 0, 0)
  }

  function ReserveOp(quantity: real, productionOrder: Id): Op {
    Reserve(ReserveInput(0, 0, quantity, Some(productionOrder), None, Some(0), Some(0)), false, 0)
  }

  function Reserving(quantity: real, productionOrder: Id): Reservation {
    Reservation(0, 0, Some(0), Some(productionOrder), quantity, 5, 0, Active)
  }

  lemma Finished(masters: Masters, quantity: real) returns (db: Db)
    requires KnownOrder(masters, 0, 1) && KnownMaterial(masters, 0, 0) && quantity > 0.0
    ensures db == Step(Empty(masters), Finish(quantity)) && db.masters == masters && Core(db) && Tight(db)
    ensures db.stock.rows == [Row(SHELF, quantity)] && db.reservations == [] && db.requests == []
    ensures |db.stock.batches| == 1
  {
    db := Step(Empty(masters), Finish(quantity));
    EmptyIsCore(masters);
    StepKeepsCore(Empty(masters), Finish(quantity));
    StepTightExactlyWhen(Empty(masters), Finish(quantity));
  }

  lemma SixReserved(db: Db) returns (t: Db)
    requires Core(db) && Tight(db) && KnownMaterial(db.masters, 0, 0)
    requires db.stock.rows == [Row(SHELF, 10.0)] && db.reservations == [] && db.requests == []
    ensures t == Step(db, ReserveOp(6.0, 1)) && t.masters == db.masters && Core(t) && Tight(t)
    ensures t.stock.rows == [Row(SHELF, 4.0), Row(KEPT, 6.0)] && t.reservations == [Reserving(6.0, 1)]
    ensures t.requests == []
  {
    var taken := Deducted(db.stock, SHELF, 6.0, ReserveOut).value;
    assert taken.rows == [Row(SHELF, 4.0)];
    assert Added(taken, KEPT, 6.0, ReserveIn).value.rows == [Row(SHELF, 4.0), Row(KEPT, 6.0)];
    t := Step(db, ReserveOp(6.0, 1));
    StepKeepsCore(db, ReserveOp(6.0, 1));
    StepTightExactlyWhen(db, ReserveOp(6.0, 1));
  }

  lemma TwoMoreReserved(db: Db) returns (t: Db)
    requires Core(db) && Tight(db) && KnownMaterial(db.masters, 0, 0) && db.requests == []
    requires db.stock.rows == [Row(SHELF, 4.0), Row(KEPT, 6.0)] && db.reservations == [Reserving(6.0, 1)]
    ensures t == Step(db, ReserveOp(2.0, 2)) && t.masters == db.masters && Core(t) && Tight(t)
    ensures t.stock.rows == [Row(SHELF, 2.0), Row(KEPT, 8.0)]
    ensures t.reservations == [Reserving(6.0, 1), Reserving(2.0, 2)]
  {
    var taken := Deducted(db.stock, SHELF, 2.0, ReserveOut).value;
    t := Step(db, ReserveOp(2.0, 2));
    assert taken.rows == [Row(SHELF, 2.0), Row(KEPT, 6.0)];
    assert FindFrom(taken.rows, Exactly(KEPT), None, 1) == 1;
    assert Added(taken, KEPT, 2.0, ReserveIn).value.rows == [Row(SHELF, 2.0), Row(KEPT, 8.0)];
    StepKeepsCore(db, ReserveOp(2.0, 2));
    StepTightExactlyWhen(db, ReserveOp(2.0, 2));
  }

  /** Five units of the batch, issued for the second order. */
  predicate FiveForTwo(dto: IssueInput) {
    dto == IssueInput(0, Some(2), None, false, [IssueLine(0, 0, 5.0, None)])
  }

  predicate ContextOf(ctx: Context, db: Db) {
    ctx == Context(0, 0, Some(2), None, false, false, ctx.fefoEnabled, db)
  }

  lemma TwoHeldForTwo()
    ensures HeldFor([Reserving(6.0, 1), Reserving(2.0, 2)], LOT, Some(2)) == 2.0
  {
    var rs := [Reserving(6.0, 1), Reserving(2.0, 2)];
    assert rs[..1] == [Reserving(6.0, 1)] && rs[..1][..0] == [];
    assert HeldFor(rs[..1], LOT, Some(2)) == 0.0;
  }

  /** The five units come from the row both orders reserved on. */
  lemma FiveRouted(db: Db, ctx: Context, line: IssueLine)
    requires Core(db) && ContextOf(ctx, db) && line == IssueLine(0, 0, 5.0, None)
    requires db.stock.rows == [Row(SHELF, 2.0), Row(KEPT, 8.0)]
    requires db.reservations == [Reserving(6.0, 1), Reserving(2.0, 2)]
    ensures ChosenRoute(db, ctx, line) == Ok(FromReserved(None)) && LineIssued(Progress(db, []), ctx, line).Ok?
  {
    assert Matches(db.reservations[1], LotOf(ctx, line), Some(2));
    assert FindFrom(db.stock.rows, StockFor(ctx, line, Reserved), Some(5.0), 1) == 1;
    assert FindFrom(db.stock.rows, ReservedStock(Consumption(ctx, line, None)), Some(5.0), 1) == 1;
    assert FindFrom(db.stock.rows, Exactly(KEPT), None, 1) == 1;
  }

  lemma OneLinePosted(db: Db, dto: IssueInput, policy: Policy, ctx: Context)
    requires IssueContext(db, 0, dto, policy, false) == Ok(ctx) && |dto.lines| == 1 && dto.request.None?
    requires LineIssued(Progress(db, []), ctx, dto.lines[0]).Ok?
    ensures Step(db, PostIssue(0, dto, policy, false)) == LineIssued(Progress(db, []), ctx, dto.lines[0]).value.db
  {
    assert LinesIssued(Progress(db, []), ctx, dto.lines) == LineIssued(Progress(db, []), ctx, dto.lines[0]);
  }

  lemma FiveIssued(db: Db, dto: IssueInput, policy: Policy) returns (t: Db)
    requires Core(db) && Tight(db) && (0, 0) in db.masters.warehouses && FiveForTwo(dto)
    requires db.stock.rows == [Row(SHELF, 2.0), Row(KEPT, 8.0)]
    requires db.reservations == [Reserving(6.0, 1), Reserving(2.0, 2)]
    ensures t == Step(db, PostIssue(0, dto, policy, false)) && Slack(t, LOT) == 3.0
  {
    var ctx := IssueContext(db, 0, dto, policy, false).value;
    FiveRouted(db, ctx, dto.lines[0]);
    OneLinePosted(db, dto, policy, ctx);
    t := LineIssued(Progress(db, []), ctx, dto.lines[0]).value.db;
    LineIssuedSlack(Progress(db, []), ctx, dto.lines[0], LOT);
    WantedIsHeldFor(db.reservations, LOT, Some(2));
    TwoHeldForTwo();
    assert Slack(db, LOT) == 0.0;
  }

  /** With six units of a batch reserved for one order and two for another, an issue of
      five for the second leaves six reserved on paper but three in stock. */
  lemma ForeignStockIssued(masters: Masters, dto: IssueInput, policy: Policy) returns (ops: seq<Op>)
    requires KnownOrder(masters, 0, 1) && KnownMaterial(masters, 0, 0) && (0, 0) in masters.warehouses
              && FiveForTwo(dto)
    ensures ops != [] && Tight(Run(Empty(masters), ops[..|ops| - 1])) && Slack(Run(Empty(masters), ops), LOT) == 3.0
  {
    var ready := [Finish(10.0), ReserveOp(6.0, 1), ReserveOp(2.0, 2)];
    ops := ready + [PostIssue(0, dto, policy, false)];
    var a := Finished(masters, 10.0);
    var b := SixReserved(a);
    var c := TwoMoreReserved(b);
    var d := FiveIssued(c, dto, policy);
    assert ops[..3] == ready;
    assert Run(Empty(masters), ready) == Run(a, ready[1..]) == Run(b, ready[1..][1..]) == Run(c, ready[1..][1..][1..]);
    assert Run(Empty(masters), ops) == Run(a, ops[1..]) == Run(b, ops[1..][1..]) == Run(c, ops[1..][1..][1..])
        == Run(d, ops[1..][1..][1..][1..]);
  }

  // ----- picks out of order -----

  const THERE := SHELF.(location := Some(7))

  /** Three of eight finished units put elsewhere in the warehouse. */
  lemma ThreePutElsewhere(masters: Masters) returns (db: Db)
    requires KnownOrder(masters, 0, 1) && KnownMaterial(masters, 0, 0) && (0, 0) in masters.warehouses
    ensures db == Step(Step(Empty(masters), Finish(8.0)),
                       PostTransfer(0, 0, 0, [TransferLine(0, 0, 3.0, None, Some(7), Available)]))
    ensures Core(db) && db.masters == masters && db.stock.rows == [Row(SHELF, 5.0), Row(THERE, 3.0)]
  {
    var line := TransferLine(0, 0, 3.0, None, Some(7), Available);
    var op := PostTransfer(0, 0, 0, [line]);
    var a := Finished(masters, 8.0);
    db := Step(a, op);
    StepKeepsCore(a, op);
    var taken := Deducted(a.stock, SHELF, 3.0, TransferOut).value;
    assert taken.rows == [Row(SHELF, 5.0)];
    assert Added(taken, THERE, 3.0, TransferIn).value.rows == [Row(SHELF, 5.0), Row(THERE, 3.0)];
    assert [line][1..] == [];
    assert LinesTransferred(a, 0, 0, 0, [line]) == LineTransferred(a, 0, 0, 0, line);
  }

  lemma WrongRowDrawn(db: Db, order: ForOrder, picks: seq<FifoEngine.Pick>)
    requires Core(db) && KnownMaterial(db.masters, 0, 0) && order.company == 0
    requires db.stock.rows == [Row(SHELF, 5.0), Row(THERE, 3.0)]
    requires picks == [FifoEngine.Pick(Row(THERE, 3.0), 3.0), FifoEngine.Pick(Row(SHELF, 5.0), 5.0)]
    ensures var a := PicksReserved(db, order, 0, picks, []);
            a.error == Some(InsufficientStock) && |a.db.reservations| == |db.reservations| + 1
  {
    var p, q := InputFor(order, 0, picks[0]), InputFor(order, 0, picks[1]);
    var taken := Deducted(db.stock, SHELF, 3.0, ReserveOut).value;
    assert taken.rows == [Row(SHELF, 2.0), Row(THERE, 3.0)];
    assert FindFrom(taken.rows, Exactly(KEPT), None, 1) == 2;
    var t := Created(db, p, order.fefoEnabled, order.now).value;
    assert t.stock.rows == [Row(SHELF, 2.0), Row(THERE, 3.0), Row(KEPT, 3.0)];
    assert Find(t.stock.rows, OnBatch(q), Some(5.0)) == 3;
    assert picks[1..] == [picks[1]];
  }

  lemma TwoHeld(rows: seq<Row>, w: Where)
    requires |rows| == 2 && rows[0].quantity > 0.0 && rows[1].quantity > 0.0
    requires w.Hits(rows[0].key) && w.Hits(rows[1].key)
    ensures FifoEngine.Holding(rows, w) == rows
  {
    assert rows[..1] == [rows[0]] && rows[..1][..0] == [];
    assert FifoEngine.Holding(rows[..1], w) == rows[..1];
  }

  lemma TwoOrdered(rows: seq<Row>, le: (Row, Row) -> bool)
    requires |rows| == 2 && le(rows[0], rows[1])
    ensures OrderBy(rows, le) == rows
  {
    assert rows[..1] == [rows[0]] && rows[..1][..0] == [];
    assert OrderBy(rows[..1], le) == rows[..1];
  }

  lemma TwoPicked(rows: seq<Row>)
    requires |rows| == 2 && rows[0].quantity > 0.0 && rows[1].quantity > 0.0
    ensures FifoEngine.Suggested(rows, rows[0].quantity + rows[1].quantity) == FifoEngine.Suggestion(
              [FifoEngine.Pick(rows[0], rows[0].quantity), FifoEngine.Pick(rows[1], rows[1].quantity)], 0.0, true)
  {
    var rest := rows[1..];
    assert rest == [rows[1]] && rest[1..] == [];
    assert FifoEngine.Picks(rest, rows[1].quantity) == [FifoEngine.Pick(rows[1], rows[1].quantity)];
    assert FifoEngine.Left(rest, rows[1].quantity) == 0.0;
  }

  lemma BothPicked(db: Db, order: ForOrder)
    requires db.stock.rows == [Row(THERE, 3.0), Row(SHELF, 5.0)] && order.company == 0
    ensures SuggestionFor(db, order, Want(0, 8.0)) == FifoEngine.Suggestion(
              [FifoEngine.Pick(Row(THERE, 3.0), 3.0), FifoEngine.Pick(Row(SHELF, 5.0), 5.0)], 0.0, true)
  {
    TwoHeld(db.stock.rows, FifoEngine.StockOf(0, 0, None, Available));
    TwoOrdered(db.stock.rows,
               FifoEngine.Older(db.stock.batches, FifoEngine.UsesFefo(db.masters, 0, 0, order.fefoEnabled)));
    TwoPicked(db.stock.rows);
  }

  /** The batch's rows one way round when suggested, the other way when drawn on. */
  predicate TurnedRound(shuffles: Shuffles) {
    shuffles == [[Row(THERE, 3.0), Row(SHELF, 5.0)], [Row(SHELF, 5.0), Row(THERE, 3.0)]]
  }

  lemma EightReserved(db: Db, order: ForOrder, shuffles: Shuffles)
    requires Core(db) && KnownMaterial(db.masters, 0, 0) && order.company == 0 && TurnedRound(shuffles)
    requires db.stock.rows == [Row(SHELF, 5.0), Row(THERE, 3.0)]
    ensures var a := WantReserved(db, order, Want(0, 8.0), shuffles);
            a.error == Some(InsufficientStock) && |a.db.reservations| == |db.reservations| + 1
  {
    var d := Shuffled(db, shuffles);
    var e := Shuffled(d, Later(shuffles));
    var picks := SuggestionFor(d, order, Want(0, 8.0)).picks;
    assert multiset(shuffles[0]) == multiset{Row(THERE, 3.0), Row(SHELF, 5.0)} == multiset(db.stock.rows);
    assert multiset(shuffles[1]) == multiset(d.stock.rows);
    ShuffledSame(db, shuffles);
    ShuffledSame(d, Later(shuffles));
    BothPicked(d, order);
    WrongRowDrawn(e, order, picks);
    ShuffledOnce(d, order, 0, picks, Later(shuffles));
  }

  /** A request for all eight units fails after it has made one of its two reservations:
      its first pick breaks the row its second was meant for. */
  lemma OtherOrderFails(masters: Masters, fefoEnabled: bool, now: int, shuffles: Shuffles) returns (db: Db)
    requires KnownOrder(masters, 0, 1) && KnownMaterial(masters, 0, 0) && (0, 0) in masters.warehouses
    requires TurnedRound(shuffles)
    ensures db == Step(Step(Empty(masters), Finish(8.0)),
                       PostTransfer(0, 0, 0, [TransferLine(0, 0, 3.0, None, Some(7), Available)]))
    ensures var a := RequestCreated(db, 0, None, [Want(0, 8.0)], fefoEnabled, now, [shuffles]);
            && a.error == Some(InsufficientStock) && |a.db.requests| == |db.requests| + 1
            && |a.db.reservations| == |db.reservations| + 1
  {
    var wants := [Want(0, 8.0)];
    db := ThreePutElsewhere(masters);
    RequestedEight(db, fefoEnabled, now, wants, shuffles);
  }

  lemma RequestedEight(db: Db, fefoEnabled: bool, now: int, wants: seq<Want>, shuffles: Shuffles)
    requires Core(db) && KnownMaterial(db.masters, 0, 0) && TurnedRound(shuffles) && wants == [Want(0, 8.0)]
    requires db.stock.rows == [Row(SHELF, 5.0), Row(THERE, 3.0)]
    ensures var a := RequestCreated(db, 0, None, wants, fefoEnabled, now, [shuffles]);
            && a.error == Some(InsufficientStock) && |a.db.requests| == |db.requests| + 1
            && |a.db.reservations| == |db.reservations| + 1
  {
    var t := RequestOpened(db, 0, None, wants);
    var order := OrderFor(db, 0, None, fefoEnabled, now);
    RequestOpenedKeeps(db, 0, None, wants);
    EightReserved(t, order, shuffles);
    WantReservedFrame(t, order, wants[0], shuffles);
  }

  // ----- more than the oldest row holds -----

  /** Six units finished twice, in a batch each. */
  lemma TwiceSix(masters: Masters) returns (db: Db)
    requires KnownOrder(masters, 0, 1) && KnownMaterial(masters, 0, 0)
    ensures db == Step(Step(Empty(masters), Finish(6.0)), Finish(6.0)) && Core(db) && db.masters == masters
    ensures db.stock.rows == [Row(SHELF, 6.0), Row(SHELF.(lot := Lot(0, 0, 1)), 6.0)]
  {
    var a := Finished(masters, 6.0);
    db := SixMoreFinished(a);
  }

  lemma SixMoreFinished(db: Db) returns (t: Db)
    requires Core(db) && KnownOrder(db.masters, 0, 1) && KnownMaterial(db.masters, 0, 0)
    requires db.stock.rows == [Row(SHELF, 6.0)] && |db.stock.batches| == 1
    ensures t == Step(db, Finish(6.0)) && Core(t) && t.masters == db.masters
    ensures t.stock.rows == [Row(SHELF, 6.0), Row(SHELF.(lot := Lot(0, 0, 1)), 6.0)]
  {
    var key := SHELF.(lot := Lot(0, 0, 1));
    var stock := db.stock.(batches := db.stock.batches + [Batch(0, 0, 0, 0, None)]);
    assert Find(stock.rows, Exactly(key), None) == 1;
    t := Step(db, Finish(6.0));
    StepKeepsCore(db, Finish(6.0));
  }

  /** So stock in two batches of six does not reserve ten, though twelve are available. */
  lemma TotalDoesNotSuffice(masters: Masters, fefoEnabled: bool, now: int) returns (db: Db, p: ReserveInput)
    requires KnownOrder(masters, 0, 1) && KnownMaterial(masters, 0, 0)
    ensures db == Step(Step(Empty(masters), Finish(6.0)), Finish(6.0))
    ensures p.batch.None? && p.warehouse.None? && p.quantity == 10.0 && KnownMaterial(db.masters, p.company, p.material)
    ensures OnHand(db.stock.rows, FifoEngine.StockOf(p.company, p.material, p.warehouse, Available)) == 12.0
    ensures Created(db, p, fefoEnabled, now).Err?
  {
    db := TwiceSix(masters);
    p := ReserveInput(0, 0, 10.0, None, None, None, None);
    var rows := db.stock.rows;
    assert rows[..1] == [Row(SHELF, 6.0)] && rows[..1][..0] == [];
    assert OnHand(rows[..1], FifoEngine.StockOf(0, 0, None, Available)) == 6.0;
    WithoutBatchExactlyWhen(db, p, fefoEnabled, now);
    if ShelfFor(db, p, fefoEnabled) != [] {
      var i := HeadIsRow(db, p, fefoEnabled);
      assert db.stock.rows[i].quantity == 6.0;
    }
  }

  // ----- goods received -----

  /** Ten units received ad hoc, some of them damaged. */
  function Delivery(damage: real): GrnInput {
    GrnInput(None, Some(0), 0, None, false, [GrnLine(None, Some(0), 10.0, damage, 0.0, None, 0)])
  }

  function DeliveredItem(damage: real, qcRequired: bool): GrnItem {
    GrnItem(0, None, LOT, 0, None, 10.0, damage, 0.0, qcRequired, if qcRequired then QcPending else QcWaived, 0.0, 0.0)
  }

  predicate Deliverable(masters: Masters, policy: Policy) {
    && KnownSupplier(masters, 0, 0) && KnownMaterial(masters, 0, 0) && (0, 0) in masters.warehouses
    && !policy.grnRequiresPurchaseOrder && policy.qcMode == Always
  }

  lemma DeliveryBooked(masters: Masters, policy: Policy, damage: real) returns (p: Posting)
    requires Deliverable(masters, policy)
    ensures var start := Opened(Empty(masters), 0, 0, None);
            && LinesBooked(start, 0, 0, Delivery(damage), Delivery(damage).lines, policy.qcMode, 0) == Ok(p)
            && p.anyQc && p.db.grnItems == [DeliveredItem(damage, true)]
            && p.db == start.db.(stock := p.db.stock, grnItems := p.db.grnItems)
            && (damage == 0.0 ==> p.db.stock.rows == [Row(SHELF.(status := QualityHold), 10.0)])
  {
    var start := Opened(Empty(masters), 0, 0, None);
    var lines := Delivery(damage).lines;
    var r := LineBooked(start, 0, 0, Delivery(damage), lines[0], policy.qcMode, 0);
    assert lines[1..] == [];
    p := r.value;
  }

  lemma DeliveryPosted(masters: Masters, policy: Policy, damage: real) returns (db: Db)
    requires Deliverable(masters, policy)
    ensures PostedGrn(Empty(masters), 0, Delivery(damage), policy, false, 0) == Ok(db)
    ensures db.grnItems == [DeliveredItem(damage, true)]
    ensures |db.receipts| == 1 && db.receipts[0].company == 0 && db.receipts[0].status == PendingQc
    ensures db.fgItems == [] && db.returnItems == [] && db.issueItems == [] && db.dispatches == []
    ensures damage == 0.0 ==> db.stock.rows == [Row(SHELF.(status := QualityHold), 10.0)]
  {
    var p := DeliveryBooked(masters, policy, damage);
    assert Admitted(Empty(masters), 0, Delivery(damage), policy, false) == Ok(0);
    db := Settled(p, 0, None, policy);
  }

  lemma Delivered(masters: Masters, policy: Policy, damage: real) returns (db: Db)
    requires Deliverable(masters, policy)
    ensures db == Step(Empty(masters), PostGrn(0, Delivery(damage), policy, false, 0))
    ensures Core(db) && AllHoldBalanced(db) && db.grnItems == [DeliveredItem(damage, true)]
    ensures |db.receipts| == 1 && db.receipts[0].company == 0 && db.receipts[0].status == PendingQc
    ensures db.fgItems == [] && db.returnItems == [] && db.issueItems == [] && db.dispatches == []
    ensures damage == 0.0 ==> db.stock.rows == [Row(SHELF.(status := QualityHold), 10.0)]
  {
    db := DeliveryPosted(masters, policy, damage);
    EmptyIsCore(masters);
    PostedGrnKeeps(Empty(masters), 0, Delivery(damage), policy, false, 0);
  }

  /** Ten units received and fifteen of them reported damaged put fifteen into stock. */
  lemma DamageBeyondReceived(masters: Masters, policy: Policy) returns (db: Db)
    requires Deliverable(masters, policy)
    ensures db == Step(Empty(masters), PostGrn(0, Delivery(15.0), policy, false, 0))
    ensures |db.grnItems| == 1 && db.grnItems[0].lot == LOT && db.grnItems[0].received == 10.0
    ensures OnHand(db.stock.rows, OfLot(LOT)) == 15.0
  {
    db := Delivered(masters, policy, 15.0);
    BookedOwn(db.grnItems, |db.stock.batches|, 0);
    assert OnHand(db.stock.rows, OfLot(LOT)) == Documented(db, LOT);
  }

  // ----- inspection -----

  /** One verdict that decides nothing completes the receipt, ten units still on hold. */
  lemma HoldVerdictStrandsStock(masters: Masters, policy: Policy) returns (db: Db)
    requires Deliverable(masters, policy)
    ensures db == Step(Empty(masters), PostGrn(0, Delivery(0.0), policy, false, 0))
    ensures var t := Step(db, Inspect(0, 0, [QcLine(0, VerdictHold, 0.0, 0.0)], policy));
            && |t.receipts| == 1 && t.receipts[0].status == Completed
            && OnHand(t.stock.rows, HoldOf(0)) == 10.0
  {
    db := Delivered(masters, policy, 0.0);
    HoldVerdictCompletes(db, 0, 0, 0, policy);
    assert HoldBalanced(db, 0);
  }

  /** Three and then four units of one item accepted. */
  predicate ThreeThenFour(lines: seq<QcLine>) {
    lines == [QcLine(0, VerdictAccepted, 3.0, 0.0), QcLine(0, VerdictAccepted, 4.0, 0.0)]
  }

  lemma ThreeThenFourApplied(db: Db, lines: seq<QcLine>) returns (t: Db)
    requires Core(db) && db.grnItems == [DeliveredItem(0.0, true)] && ThreeThenFour(lines)
    requires db.stock.rows == [Row(SHELF.(status := QualityHold), 10.0)]
    ensures QcLinesApplied(db, db.grnItems, 0, 0, lines) == Ok(t)
  {
    var hold := SHELF.(status := QualityHold);
    var u := QcLineApplied(db, db.grnItems, 0, 0, lines[0]).value;
    assert u.stock.rows == [Row(hold, 7.0), Row(SHELF, 3.0)];
    assert OnHold(0, db.grnItems[0]) == hold;
    QcLineKeeps(db, db.grnItems, 0, 0, lines[0]);
    var down := Deducted(u.stock, hold, 4.0, QcRelease).value;
    assert Added(down, SHELF, 4.0, QcAccept).Ok?;
    assert QcStock(u.stock, hold, lines[1]).Ok?;
    t := QcLineApplied(u, db.grnItems, 0, 0, lines[1]).value;
    assert lines[1..] == [lines[1]] && lines[1..][1..] == [];
    assert QcLinesApplied(db, db.grnItems, 0, 0, lines) == QcLinesApplied(u, db.grnItems, 0, 0, lines[1..])
        == QcLinesApplied(t, db.grnItems, 0, 0, lines[1..][1..]);
  }

  lemma ThreeThenFourCounts(lines: seq<QcLine>)
    requires ThreeThenFour(lines)
    ensures NonNegative(lines) && !OnlyLastDecides(lines)
    ensures Mentions(lines, 0) && Moves(lines, 0) == 7.0 && LastOn(lines, 0) == 4.0
  {
    var rest := lines[1..];
    assert rest == [lines[1]] && rest[1..] == [];
    assert lines[0].item == lines[1].item == 0 && lines[0].accepted != 0.0;
    assert rest[0].item == 0 && !Mentions(rest[1..], 0);
    assert Moves(rest, 0) == LastOn(rest, 0) == Decides(rest[0]);
  }

  /** What an inspection leaves of ten units on hold. */
  lemma TenInspected(db: Db, lines: seq<QcLine>, policy: Policy) returns (t: Db)
    requires Core(db) && AllHoldBalanced(db) && db.grnItems == [DeliveredItem(0.0, true)]
    requires |db.receipts| == 1 && db.receipts[0].company == 0 && db.receipts[0].status == PendingQc
    requires QcLinesApplied(db, db.grnItems, 0, 0, lines).Ok? && NonNegative(lines) && Mentions(lines, 0)
    ensures QcApplied(db, 0, 0, lines, policy) == Ok(t)
    ensures |t.grnItems| == 1 && t.grnItems[0].accepted + t.grnItems[0].rejected == LastOn(lines, 0)
    ensures OnHand(t.stock.rows, HoldOf(0)) == 10.0 - Moves(lines, 0)
  {
    t := QcApplied(db, 0, 0, lines, policy).value;
    QcLinesEffect(db, db.grnItems, 0, 0, lines, 0);
    assert HoldBalanced(db, 0);
  }

  lemma ThreeThenFourUnbalances(db: Db, lines: seq<QcLine>, policy: Policy)
    requires Core(db) && AllHoldBalanced(db) && ThreeThenFour(lines) && QcApplied(db, 0, 0, lines, policy).Ok?
    ensures !AllHoldBalanced(QcApplied(db, 0, 0, lines, policy).value)
  {
    ThreeThenFourCounts(lines);
    QcBalancesExactlyWhen(db, 0, 0, lines, policy);
  }

  lemma ThreeThenFourInspected(db: Db, lines: seq<QcLine>, policy: Policy) returns (t: Db)
    requires Core(db) && AllHoldBalanced(db) && db.grnItems == [DeliveredItem(0.0, true)]
    requires |db.receipts| == 1 && db.receipts[0].company == 0 && db.receipts[0].status == PendingQc
    requires db.stock.rows == [Row(SHELF.(status := QualityHold), 10.0)] && ThreeThenFour(lines)
    ensures QcApplied(db, 0, 0, lines, policy) == Ok(t) && !AllHoldBalanced(t)
    ensures |t.grnItems| == 1 && t.grnItems[0].accepted + t.grnItems[0].rejected == 4.0
    ensures OnHand(t.stock.rows, HoldOf(0)) == 3.0
  {
    var u := ThreeThenFourApplied(db, lines);
    ThreeThenFourCounts(lines);
    t := TenInspected(db, lines, policy);
    ThreeThenFourUnbalances(db, lines, policy);
  }

  lemma Inspected(db: Db, lines: seq<QcLine>, policy: Policy, t: Db)
    requires QcApplied(db, 0, 0, lines, policy) == Ok(t)
    ensures Step(db, Inspect(0, 0, lines, policy)) == t
  {
  }

  /** Accepting three and then four units of one item in one inspection leaves three on
      hold and four accepted: the second line's counter overwrites the first's. */
  lemma TwiceInOneInspection(masters: Masters, policy: Policy, lines: seq<QcLine>) returns (db: Db, t: Db)
    requires Deliverable(masters, policy) && ThreeThenFour(lines)
    ensures db == Step(Empty(masters), PostGrn(0, Delivery(0.0), policy, false, 0)) && AllHoldBalanced(db)
    ensures t == Step(db, Inspect(0, 0, lines, policy)) && !AllHoldBalanced(t)
    ensures |t.grnItems| == 1 && t.grnItems[0].accepted + t.grnItems[0].rejected == 4.0
    ensures OnHand(t.stock.rows, HoldOf(0)) == 3.0
  {
    db := Delivered(masters, policy, 0.0);
    t := ThreeThenFourInspected(db, lines, policy);
    Inspected(db, lines, policy, t);
  }
}
