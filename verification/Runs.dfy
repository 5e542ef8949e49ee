/** The store as a state machine, and its runs. */
module Runs {
  import opened Base
  import opened Tables
  import opened StockEngine
  import opened ReservationEngine
  import opened Invariants
  import opened Workflow
  import opened Grn
  import opened GrnLaws
  import opened Issue
  import opened IssueLaws
  import opened Production
  import opened ProductionLaws
  import opened Dispatching

  /** One request to the store. `EditMasters` stands for any change to master data;
      `Reorder` for the database returning rows in another order from now on. */
  datatype Op =
    | EditMasters(masters: Masters)
    | Reorder(rows: seq<Row>)
    | PlaceOrder(company: Id, supplier: Id, open: bool, poLines: seq<PoLine>)
    | PostGrn(company: Id, grn: GrnInput, policy: Policy, permitted: bool, now: int)
    | Inspect(company: Id, receipt: nat, qcLines: seq<QcLine>, policy: Policy)
    | Reserve(input: ReserveInput, fefoEnabled: bool, now: int)
    | Unreserve(company: Id, reservation: nat)
    | PostIssue(company: Id, issue: IssueInput, policy: Policy, permitted: bool)
    | PostReturn(company: Id, warehouse: Id, returnLines: seq<ReturnLine>)
    | PostTransfer(company: Id, from: Id, to: Id, transferLines: seq<TransferLine>)
    | DraftDispatch(company: Id, warehouse: Id, dispatchLines: seq<DispatchLine>)
    | ShipDispatch(company: Id, dispatch: nat)
    | RequestMaterial(company: Id, order: Option<Id>, wants: seq<Want>, fefoEnabled: bool, now: int,
                      shuffles: seq<Shuffles>)
    | ExplodeBom(company: Id, bom: Id, productionOrder: Id, quantity: real, fefoEnabled: bool, now: int,
                 shuffles: seq<Shuffles>)
    | FinishGoods(company: Id, productionOrder: Id, material: Id, warehouse: Id, quantity: real,
                  location: Option<Id>, expiryDate: Option<int>, batchNumber: int, now: int)

  /** A thrown exception leaves the database as it was. */
  function Settle(db: Db, r: Result<Db>): Db {
    if r.Ok? then r.value else db
  }

  function IssueOutcome(db: Db, company: Id, issue: IssueInput, policy: Policy, permitted: bool): Db {
    var r := IssuePosted(db, company, issue, policy, permitted);
    if r.Ok? then r.value.db else db
  }

  function Step(db: Db, op: Op): Db {
    match op
    case EditMasters(masters) => db.(masters := masters)
    case Reorder(rows) =>
      if multiset(rows) == multiset(db.stock.rows) then db.(stock := db.stock.(rows := rows)) else db
    case PlaceOrder(company, supplier, open, lines) => Settle(db, Placed(db, company, supplier, open, lines))
    case PostGrn(company, dto, policy, permitted, now) =>
      Settle(db, PostedGrn(db, company, dto, policy, permitted, now))
    case Inspect(company, receipt, lines, policy) => Settle(db, QcApplied(db, company, receipt, lines, policy))
    case Reserve(p, fefoEnabled, now) => Settle(db, Created(db, p, fefoEnabled, now))
    case Unreserve(company, id) => Settle(db, ReleasedIn(db, company, id))
    case PostIssue(company, dto, policy, permitted) => IssueOutcome(db, company, dto, policy, permitted)
    case PostReturn(company, warehouse, lines) => Settle(db, ReturnPosted(db, company, warehouse, lines))
    case PostTransfer(company, from, to, lines) => Settle(db, TransferPosted(db, company, from, to, lines))
    case DraftDispatch(company, warehouse, lines) => Settle(db, Drafted(db, company, warehouse, lines))
    case ShipDispatch(company, id) => Settle(db, ShippedOut(db, company, id))
    case RequestMaterial(company, order, wants, fefoEnabled, now, shuffles) =>
      RequestCreated(db, company, order, wants, fefoEnabled, now, shuffles).db
    case ExplodeBom(company, bom, productionOrder, quantity, fefoEnabled, now, shuffles) =>
      BomExploded(db, company, bom, productionOrder, quantity, fefoEnabled, now, shuffles).db
    case FinishGoods(company, productionOrder, material, warehouse, quantity, location, expiryDate, batchNumber, now) =>
      Settle(db, FgReceived(db, company, productionOrder, material, warehouse, quantity, location, expiryDate,
          batchNumber, now))
  }

  function Run(db: Db, ops: seq<Op>): Db
    decreases |ops|
  {
    if ops == [] then db else Run(Step(db, ops[0]), ops[1..])
  }

  // ----- one step -----

  lemma RequestKeeps(db: Db, order: ForOrder, wants: seq<Want>, shuffles: seq<Shuffles>)
    requires Core(db)
    ensures Keeps(db, WantsReserved(RequestOpened(db, order.company, order.productionOrder, wants), order, wants,
                shuffles).db)
  {
    RequestOpenedKeeps(db, order.company, order.productionOrder, wants);
    WantsReservedKeep(RequestOpened(db, order.company, order.productionOrder, wants), order, wants, shuffles);
  }

  lemma PurchasingKeeps(db: Db, op: Op)
    requires Core(db) && (op.PlaceOrder? || op.PostGrn?)
    ensures Keeps(db, Step(db, op))
  {
    SameStore(db, db);
    if op.PlaceOrder? {
      if Placed(db, op.company, op.supplier, op.open, op.poLines).Ok? {
        PlacedKeeps(db, op.company, op.supplier, op.open, op.poLines);
      }
    } else if PostedGrn(db, op.company, op.grn, op.policy, op.permitted, op.now).Ok? {
      PostedGrnKeeps(db, op.company, op.grn, op.policy, op.permitted, op.now);
    }
  }

  lemma ReservingKeeps(db: Db, op: Op)
    requires Core(db) && (op.Reserve? || op.Unreserve?)
    ensures Keeps(db, Step(db, op))
  {
    SameStore(db, db);
    if op.Reserve? {
      if Created(db, op.input, op.fefoEnabled, op.now).Ok? {
        CreatedKeeps(db, op.input, op.fefoEnabled, op.now);
      }
    } else if ReleasedIn(db, op.company, op.reservation).Ok? {
      ReleasedKeeps(db, op.company, op.reservation);
    }
  }

  lemma ReturningKeeps(db: Db, op: Op)
    requires Core(db) && op.PostReturn?
    ensures Keeps(db, Step(db, op))
  {
    SameStore(db, db);
    if ReturnPosted(db, op.company, op.warehouse, op.returnLines).Ok? {
      LinesReturnedKeep(db, op.company, op.warehouse, op.returnLines);
    }
  }

  lemma TransferringKeeps(db: Db, op: Op)
    requires Core(db) && op.PostTransfer?
    ensures Keeps(db, Step(db, op))
  {
    SameStore(db, db);
    if TransferPosted(db, op.company, op.from, op.to, op.transferLines).Ok? {
      LinesTransferredKeep(db, op.company, op.from, op.to, op.transferLines);
    }
  }

  lemma DispatchingKeeps(db: Db, op: Op)
    requires Core(db) && (op.DraftDispatch? || op.ShipDispatch?)
    ensures Keeps(db, Step(db, op))
  {
    SameStore(db, db);
    if op.DraftDispatch? {
      if Drafted(db, op.company, op.warehouse, op.dispatchLines).Ok? {
        DraftedKeeps(db, op.company, op.warehouse, op.dispatchLines);
      }
    } else if ShippedOut(db, op.company, op.dispatch).Ok? {
      ShippedOutKeeps(db, op.company, op.dispatch);
    }
  }

  lemma FinishGoodsKeeps(db: Db, op: Op)
    requires Core(db) && op.FinishGoods?
    ensures Keeps(db, Step(db, op))
  {
    SameStore(db, db);
    if FgReceived(db, op.company, op.productionOrder, op.material, op.warehouse, op.quantity,
                  op.location, op.expiryDate, op.batchNumber, op.now).Ok? {
      FgReceivedKeeps(db, op.company, op.productionOrder, op.material, op.warehouse, op.quantity,
                      op.location, op.expiryDate, op.batchNumber, op.now);
    }
  }

  lemma RequestCreatedKeeps(
      db: Db, company: Id, productionOrder: Option<Id>, wants: seq<Want>, fefoEnabled: bool, now: int,
      shuffles: seq<Shuffles>)
    requires Core(db)
    ensures Keeps(db, RequestCreated(db, company, productionOrder, wants, fefoEnabled, now, shuffles).db)
  {
    if RequestRefusal(db, company, productionOrder, wants).None? {
      RequestKeeps(db, OrderFor(db, company, productionOrder, fefoEnabled, now), wants, shuffles);
    } else {
      SameStore(db, db);
    }
  }

  lemma BomExplodedKeeps(
      db: Db, company: Id, bom: Id, productionOrder: Id, quantity: real, fefoEnabled: bool, now: int,
      shuffles: seq<Shuffles>)
    requires Core(db)
    ensures Keeps(db, BomExploded(db, company, bom, productionOrder, quantity, fefoEnabled, now, shuffles).db)
  {
    if ExplodeRefusal(db, company, bom, productionOrder, quantity).None? {
      RequestKeeps(db, OrderFor(db, company, Some(productionOrder), fefoEnabled, now),
                   Exploded(db.masters.boms[bom], quantity), shuffles);
    } else {
      SameStore(db, db);
    }
  }

  lemma EditingKeeps(db: Db, op: Op)
    requires Core(db) && (op.EditMasters? || op.Reorder?)
    ensures Keeps(db, Step(db, op))
  {
    SameStore(db, db);
    if op.EditMasters? {
      SameStore(db, db.(masters := op.masters));
    } else if multiset(op.rows) == multiset(db.stock.rows) {
      ReorderKeeps(db, op.rows);
    }
  }

  /** Every step but inspection and issue keeps all there is to keep. */
  lemma StepKeeps(db: Db, op: Op)
    requires Core(db) && !op.Inspect? && !op.PostIssue?
    ensures Keeps(db, Step(db, op))
  {
    match op
    case EditMasters(_) => EditingKeeps(db, op);
    case Reorder(_) => EditingKeeps(db, op);
    case PlaceOrder(_, _, _, _) => PurchasingKeeps(db, op);
    case PostGrn(_, _, _, _, _) => PurchasingKeeps(db, op);
    case Reserve(_, _, _) => ReservingKeeps(db, op);
    case Unreserve(_, _) => ReservingKeeps(db, op);
    case PostReturn(_, _, _) => ReturningKeeps(db, op);
    case PostTransfer(_, _, _, _) => TransferringKeeps(db, op);
    case DraftDispatch(_, _, _) => DispatchingKeeps(db, op);
    case ShipDispatch(_, _) => DispatchingKeeps(db, op);
    case RequestMaterial(company, order, wants, fefoEnabled, now, shuffles) =>
      RequestCreatedKeeps(db, company, order, wants, fefoEnabled, now, shuffles);
    case ExplodeBom(company, bom, order, quantity, fefoEnabled, now, shuffles) =>
      BomExplodedKeeps(db, company, bom, order, quantity, fefoEnabled, now, shuffles);
    case FinishGoods(_, _, _, _, _, _, _, _, _) => FinishGoodsKeeps(db, op);
  }

  lemma InspectStepKeeps(db: Db, op: Op)
    requires Core(db) && op.Inspect?
    ensures Core(Step(db, op)) && SameSlack(db, Step(db, op))
  {
    if QcApplied(db, op.company, op.receipt, op.qcLines, op.policy).Ok? {
      QcAppliedKeeps(db, op.company, op.receipt, op.qcLines, op.policy);
    }
  }

  lemma IssueKeeps(db: Db, company: Id, issue: IssueInput, policy: Policy, permitted: bool)
    requires Core(db)
    ensures var t := IssueOutcome(db, company, issue, policy, permitted);
            Core(t) && SlackGrows(db, t) && (AllHoldBalanced(db) ==> AllHoldBalanced(t))
  {
    if IssuePosted(db, company, issue, policy, permitted).Ok? {
      IssuePostedKeeps(db, company, issue, policy, permitted);
    }
  }

  lemma IssueStepKeeps(db: Db, op: Op)
    requires Core(db) && op.PostIssue?
    ensures Core(Step(db, op)) && SlackGrows(db, Step(db, op))
    ensures AllHoldBalanced(db) ==> AllHoldBalanced(Step(db, op))
  {
    IssueKeeps(db, op.company, op.issue, op.policy, op.permitted);
  }

  lemma StepKeepsCore(db: Db, op: Op)
    requires Core(db)
    ensures Core(Step(db, op)) && SlackGrows(db, Step(db, op))
  {
    if op.Inspect? {
      InspectStepKeeps(db, op);
    } else if op.PostIssue? {
      IssueStepKeeps(db, op);
    } else {
      StepKeeps(db, op);
    }
  }

  // ----- every run -----

  lemma EmptyIsCore(masters: Masters)
    ensures Core(Empty(masters)) && AllHoldBalanced(Empty(masters)) && Tight(Empty(masters))
    ensures ClosedWhenCovered(Empty(masters)) && WithinOrdered(Empty(masters).poItems) && Progressed(Empty(masters))
  {
  }

  /** Ledger agreement, backing of reserved stock and document reconciliation hold
      after every run of any operations whatever. */
  lemma {:induction false} RunKeepsCore(db: Db, ops: seq<Op>)
    requires Core(db)
    ensures Core(Run(db, ops))
    decreases |ops|
  {
    if ops == [] {
    } else {
      StepKeepsCore(db, ops[0]);
      RunKeepsCore(Step(db, ops[0]), ops[1..]);
    }
  }

  /** Spelled out for a lot, a query and a ledger entry of any reachable state. */
  lemma ReachableStock(masters: Masters, ops: seq<Op>, lot: Lot, w: Where, key: Key, i: nat)
    ensures var db := Run(Empty(masters), ops);
            && OnHand(db.stock.rows, w) == Posted(db.stock.ledger, w)
            && DistinctKeys(db.stock.rows)
            && OnHand(db.stock.rows, Exactly(key)) >= 0.0
            && (i < |db.stock.ledger| ==>
                  db.stock.ledger[i].balanceAfter == Posted(db.stock.ledger[..i + 1], Exactly(db.stock.ledger[i].key)))
            && OnHand(db.stock.rows, OfLotIn(lot, Reserved)) <= Held(db.reservations, lot)
            && OnHand(db.stock.rows, OfLot(lot))
               == BookedOf(db.grnItems, lot) + LinesOf(db.fgItems, lot) + LinesOf(db.returnItems, lot)
                  - IssuedOf(db.issueItems, lot) - ShippedOf(db.dispatches, lot)
  {
    var db := Run(Empty(masters), ops);
    EmptyIsCore(masters);
    RunKeepsCore(Empty(masters), ops);
    OnHandNonNegative(db.stock.rows, |db.stock.batches|, Exactly(key));
    if i < |db.stock.ledger| {
      BalanceAt(db.stock.ledger, i);
    }
    assert Slack(db, lot) >= 0.0;
  }

  /** A GRN line of any reachable state: its lot's stock is what was received, plus finished
      and returned, less issued and shipped, exactly when no more is damaged than was
      received, and not less than nothing. */
  lemma ReachableReceipts(masters: Masters, ops: seq<Op>, i: nat)
    requires i < |Run(Empty(masters), ops).grnItems|
    ensures var db := Run(Empty(masters), ops);
            var item := db.grnItems[i];
            OnHand(db.stock.rows, OfLot(item.lot))
            == item.received + LinesOf(db.fgItems, item.lot) + LinesOf(db.returnItems, item.lot)
               - IssuedOf(db.issueItems, item.lot) - ShippedOf(db.dispatches, item.lot)
            <==> 0.0 <= item.damage <= item.received
  {
    EmptyIsCore(masters);
    RunKeepsCore(Empty(masters), ops);
    ReceivedReconciles(Run(Empty(masters), ops), i);
  }

  /** Inspections decide non-negative amounts and let only the last line on an item decide. */
  predicate QcDisciplined(op: Op) {
    op.Inspect? ==> (forall i | 0 <= i < |op.qcLines| :: op.qcLines[i].accepted >= 0.0 && op.qcLines[i].rejected >= 0.0)
                    && OnlyLastDecides(op.qcLines)
  }

  lemma StepKeepsHold(db: Db, op: Op)
    requires Core(db) && AllHoldBalanced(db) && QcDisciplined(op)
    ensures AllHoldBalanced(Step(db, op))
  {
    if op.Inspect? {
      if QcApplied(db, op.company, op.receipt, op.qcLines, op.policy).Ok? {
        QcBalancesExactlyWhen(db, op.company, op.receipt, op.qcLines, op.policy);
      }
    } else if op.PostIssue? {
      IssueStepKeeps(db, op);
    } else {
      StepKeeps(db, op);
    }
  }

  /** Quality hold is conserved: after every run with such inspections, through any
      transfers, issues and returns in between, each GRN line's hold stock is what
      was put on hold less what was accepted and rejected. */
  lemma {:induction false} RunKeepsHold(db: Db, ops: seq<Op>)
    requires Core(db) && AllHoldBalanced(db)
    requires forall i | 0 <= i < |ops| :: QcDisciplined(ops[i])
    ensures AllHoldBalanced(Run(db, ops))
    decreases |ops|
  {
    if ops == [] {
    } else {
      StepKeepsCore(db, ops[0]);
      StepKeepsHold(db, ops[0]);
      assert forall i | 0 <= i < |ops[1..]| :: ops[1..][i] == ops[i + 1];
      RunKeepsHold(Step(db, ops[0]), ops[1..]);
    }
  }

  // ----- reservations against reserved stock -----

  predicate StepCovered(db: Db, op: Op) {
    op.PostIssue? ==> IssueCovered(db, op.company, op.issue, op.policy, op.permitted)
  }

  predicate RunCovered(db: Db, ops: seq<Op>)
    decreases |ops|
  {
    ops != [] ==> StepCovered(db, ops[0]) && RunCovered(Step(db, ops[0]), ops[1..])
  }

  lemma StepTightExactlyWhen(db: Db, op: Op)
    requires Core(db) && Tight(db)
    ensures Tight(Step(db, op)) <==> StepCovered(db, op)
  {
    if op.Inspect? {
      InspectStepKeeps(db, op);
      StaysTight(db, Step(db, op));
    } else if op.PostIssue? {
      if IssuePosted(db, op.company, op.issue, op.policy, op.permitted).Ok? {
        IssueTightExactlyWhen(db, op.company, op.issue, op.policy, op.permitted);
      }
    } else {
      StepKeeps(db, op);
      StaysTight(db, Step(db, op));
    }
  }

  lemma StaysTight(db: Db, t: Db)
    requires SameSlack(db, t) && Tight(db)
    ensures Tight(t)
  {
    forall lot: Lot
      ensures Slack(t, lot) == 0.0
    {
      assert Slack(db, lot) == 0.0;
    }
  }

  /** Active reservations equal reserved stock after a run exactly when, all along
      it, every issue line served from reserved stock was covered by reservations. */
  lemma {:induction false} RunTightExactlyWhen(db: Db, ops: seq<Op>)
    requires Core(db) && Tight(db)
    ensures Tight(Run(db, ops)) <==> RunCovered(db, ops)
    decreases |ops|
  {
    if ops == [] {
    } else {
      var next := Step(db, ops[0]);
      StepKeepsCore(db, ops[0]);
      StepTightExactlyWhen(db, ops[0]);
      if StepCovered(db, ops[0]) {
        RunTightExactlyWhen(next, ops[1..]);
      } else {
        RunStaysLoose(next, ops[1..]);
      }
    }
  }

  lemma {:induction false} RunStaysLoose(db: Db, ops: seq<Op>)
    requires Core(db) && !Tight(db)
    ensures !Tight(Run(db, ops))
    decreases |ops|
  {
    if ops == [] {
    } else {
      StepKeepsCore(db, ops[0]);
      RunStaysLoose(Step(db, ops[0]), ops[1..]);
    }
  }

  /** So a run whose issues are for no production order keeps the two equal. */
  lemma {:induction false} RunWithoutOrdersTight(db: Db, ops: seq<Op>)
    requires Core(db) && Tight(db)
    requires forall i | 0 <= i < |ops| && ops[i].PostIssue? ::
               ops[i].issue.productionOrder.None? && ops[i].issue.request.None?
    ensures Tight(Run(db, ops))
    decreases |ops|
  {
    if ops == [] {
    } else {
      if ops[0].PostIssue? {
        WithoutOrderCovered(db, ops[0].company, ops[0].issue, ops[0].policy, ops[0].permitted);
      }
      StepKeepsCore(db, ops[0]);
      StepTightExactlyWhen(db, ops[0]);
      assert forall i | 0 <= i < |ops[1..]| :: ops[1..][i] == ops[i + 1];
      RunWithoutOrdersTight(Step(db, ops[0]), ops[1..]);
    }
  }

  // ----- purchase orders and requests along runs -----

  ghost predicate SameOrders(db: Db, t: Db) {
    t.orders == db.orders && t.poItems == db.poItems
  }

  ghost predicate SameRequests(db: Db, t: Db) {
    t.requests == db.requests && t.requestLines == db.requestLines && t.issueItems == db.issueItems
  }

  lemma {:induction false} LinesIssuedFrame(p: Progress, ctx: Context, lines: seq<IssueLine>)
    requires LinesIssued(p, ctx, lines).Ok?
    ensures SameOrders(p.db, LinesIssued(p, ctx, lines).value.db)
    decreases |lines|
  {
    if lines == [] {
    } else {
      LinesIssuedFrame(LineIssued(p, ctx, lines[0]).value, ctx, lines[1..]);
    }
  }

  lemma {:induction false} LinesReturnedFrame(db: Db, company: Id, warehouse: Id, lines: seq<ReturnLine>)
    requires LinesReturned(db, company, warehouse, lines).Ok?
    ensures var t := LinesReturned(db, company, warehouse, lines).value;
            t == db.(stock := t.stock, returnItems := t.returnItems)
    decreases |lines|
  {
    if lines == [] {
    } else {
      LinesReturnedFrame(LineReturned(db, company, warehouse, lines[0]).value, company, warehouse, lines[1..]);
    }
  }

  lemma {:induction false} LinesTransferredFrame(db: Db, company: Id, from: Id, to: Id, lines: seq<TransferLine>)
    requires LinesTransferred(db, company, from, to, lines).Ok?
    ensures var t := LinesTransferred(db, company, from, to, lines).value;
            t == db.(stock := t.stock)
    decreases |lines|
  {
    if lines == [] {
    } else {
      LinesTransferredFrame(LineTransferred(db, company, from, to, lines[0]).value, company, from, to, lines[1..]);
    }
  }

  lemma MovingFrame(db: Db, op: Op)
    requires op.PostReturn? || op.PostTransfer?
    ensures var t := Step(db, op);
            t == db.(stock := t.stock, returnItems := t.returnItems)
  {
    if op.PostReturn? {
      if ReturnPosted(db, op.company, op.warehouse, op.returnLines).Ok? {
        LinesReturnedFrame(db, op.company, op.warehouse, op.returnLines);
      }
    } else if TransferPosted(db, op.company, op.from, op.to, op.transferLines).Ok? {
      LinesTransferredFrame(db, op.company, op.from, op.to, op.transferLines);
    }
  }

  lemma RequestingFrame(db: Db, op: Op)
    requires op.RequestMaterial? || op.ExplodeBom?
    ensures SameOrders(db, Step(db, op))
  {
    if op.RequestMaterial? {
      if RequestRefusal(db, op.company, op.order, op.wants).None? {
        WantsReservedFrame(RequestOpened(db, op.company, op.order, op.wants),
                           OrderFor(db, op.company, op.order, op.fefoEnabled, op.now), op.wants, op.shuffles);
      }
    } else if ExplodeRefusal(db, op.company, op.bom, op.productionOrder, op.quantity).None? {
      var wants := Exploded(db.masters.boms[op.bom], op.quantity);
      WantsReservedFrame(RequestOpened(db, op.company, Some(op.productionOrder), wants),
                         OrderFor(db, op.company, Some(op.productionOrder), op.fefoEnabled, op.now), wants,
                         op.shuffles);
    }
  }

  /** Only placing and receiving touch purchase orders. */
  lemma StepKeepsOrders(db: Db, op: Op)
    requires !op.PlaceOrder? && !op.PostGrn?
    ensures SameOrders(db, Step(db, op))
  {
    if op.Inspect? {
      if QcApplied(db, op.company, op.receipt, op.qcLines, op.policy).Ok? {
        QcLinesTouchItems(db, db.grnItems, op.company, op.receipt, op.qcLines);
      }
    } else if op.PostIssue? {
      if IssuePosted(db, op.company, op.issue, op.policy, op.permitted).Ok? {
        LinesIssuedFrame(Progress(db, []),
          IssueContext(db, op.company, op.issue, op.policy, op.permitted).value, op.issue.lines);
      }
    } else if op.PostReturn? || op.PostTransfer? {
      MovingFrame(db, op);
    } else if op.RequestMaterial? || op.ExplodeBom? {
      RequestingFrame(db, op);
    }
  }

  /** Only issues and new requests touch requests and issue items. */
  lemma StepKeepsRequests(db: Db, op: Op)
    requires !op.PostIssue? && !op.RequestMaterial? && !op.ExplodeBom?
    ensures SameRequests(db, Step(db, op))
  {
    if op.Inspect? {
      if QcApplied(db, op.company, op.receipt, op.qcLines, op.policy).Ok? {
        QcLinesTouchItems(db, db.grnItems, op.company, op.receipt, op.qcLines);
      }
    } else if op.PostGrn? {
      if PostedGrn(db, op.company, op.grn, op.policy, op.permitted, op.now).Ok? {
        PostedGrnFrame(db, op.company, op.grn, op.policy, op.permitted, op.now);
      }
    } else if op.PostReturn? || op.PostTransfer? {
      MovingFrame(db, op);
    }
  }

  lemma PostedGrnFrame(db: Db, company: Id, dto: GrnInput, policy: Policy, permitted: bool, now: int)
    requires PostedGrn(db, company, dto, policy, permitted, now).Ok?
    ensures SameRequests(db, PostedGrn(db, company, dto, policy, permitted, now).value)
  {
    var supplier := Admitted(db, company, dto, policy, permitted).value;
    LinesKeepHeaders(Opened(db, company, supplier, dto.order), company, |db.receipts|, dto, dto.lines,
      policy.qcMode, now);
  }

  lemma StepKeepsClosed(db: Db, op: Op)
    requires ClosedWhenCovered(db)
    ensures ClosedWhenCovered(Step(db, op))
  {
    if op.PlaceOrder? {
      if Placed(db, op.company, op.supplier, op.open, op.poLines).Ok? {
        PlacedKeeps(db, op.company, op.supplier, op.open, op.poLines);
      }
    } else if op.PostGrn? {
      if PostedGrn(db, op.company, op.grn, op.policy, op.permitted, op.now).Ok? {
        PostedGrnCloses(db, op.company, op.grn, op.policy, op.permitted, op.now);
      }
    } else {
      StepKeepsOrders(db, op);
    }
  }

  /** After every run a purchase order is closed exactly when all its items are covered. */
  lemma {:induction false} RunKeepsClosed(db: Db, ops: seq<Op>)
    requires ClosedWhenCovered(db)
    ensures ClosedWhenCovered(Run(db, ops))
    decreases |ops|
  {
    if ops == [] {
    } else {
      StepKeepsClosed(db, ops[0]);
      RunKeepsClosed(Step(db, ops[0]), ops[1..]);
    }
  }

  /** Receipts that neither over-receive nor count more as short than was received. */
  predicate ReceiptsDisciplined(op: Op) {
    op.PostGrn? ==> !op.grn.allowOverReceive && NoExcessShort(op.grn.lines)
  }

  /** Received quantities grow, item by item; new items may appear. */
  ghost predicate ReceivedGrows(before: seq<PoItem>, after: seq<PoItem>) {
    && |before| <= |after|
    && forall i | 0 <= i < |before| :: before[i].received <= after[i].received
  }

  lemma StepReceives(db: Db, op: Op)
    requires WithinOrdered(db.poItems) && ReceiptsDisciplined(op)
    ensures WithinOrdered(Step(db, op).poItems) && ReceivedGrows(db.poItems, Step(db, op).poItems)
  {
    if op.PlaceOrder? {
      if Placed(db, op.company, op.supplier, op.open, op.poLines).Ok? {
        PlacedKeeps(db, op.company, op.supplier, op.open, op.poLines);
      }
    } else if op.PostGrn? {
      if PostedGrn(db, op.company, op.grn, op.policy, op.permitted, op.now).Ok? {
        PostedGrnReceives(db, op.company, op.grn, op.policy, op.permitted, op.now);
      }
    } else {
      StepKeepsOrders(db, op);
    }
  }

  /** Along every run of such receipts, in any number and with several lines on one
      item, no item receives more than was ordered (within the tolerance) and what
      was received never falls. */
  lemma {:induction false} RunReceives(db: Db, ops: seq<Op>)
    requires WithinOrdered(db.poItems)
    requires forall i | 0 <= i < |ops| :: ReceiptsDisciplined(ops[i])
    ensures WithinOrdered(Run(db, ops).poItems) && ReceivedGrows(db.poItems, Run(db, ops).poItems)
    decreases |ops|
  {
    if ops == [] {
    } else {
      StepReceives(db, ops[0]);
      assert forall i | 0 <= i < |ops[1..]| :: ops[1..][i] == ops[i + 1];
      RunReceives(Step(db, ops[0]), ops[1..]);
    }
  }

  lemma {:induction false} CreditSplit(a: seq<RequestLine>, b: seq<RequestLine>, r: nat, m: Id)
    ensures CreditOf(a + b, r, m) == CreditOf(a, r, m) + CreditOf(b, r, m)
  {
    if b == [] {
      assert a + b == a;
    } else {
      CreditSplit(a, b[..|b| - 1], r, m);
      assert (a + b)[..|a + b| - 1] == a + b[..|b| - 1];
    }
  }

  lemma {:induction false} NoCredit(lines: seq<RequestLine>, r: nat, m: Id)
    requires forall i | 0 <= i < |lines| :: lines[i].request != r || lines[i].issued == 0.0
    ensures CreditOf(lines, r, m) == 0.0
  {
    if lines == [] {
    } else {
      NoCredit(lines[..|lines| - 1], r, m);
    }
  }

  lemma {:induction false} NoneIssuedFor(items: seq<IssueItem>, r: nat, m: Id)
    requires forall i | 0 <= i < |items| :: items[i].request != Some(r)
    ensures IssuedFor(items, r, m) == 0.0
  {
    if items == [] {
    } else {
      NoneIssuedFor(items[..|items| - 1], r, m);
    }
  }

  lemma RequestOpenedProgresses(db: Db, company: Id, productionOrder: Option<Id>, wants: seq<Want>)
    requires Progressed(db)
    ensures Progressed(RequestOpened(db, company, productionOrder, wants))
  {
    var t := RequestOpened(db, company, productionOrder, wants);
    var added := RequestLines(|db.requests|, wants);
    forall i | 0 <= i < |t.requestLines|
      ensures t.requestLines[i].request < |t.requests|
    {
      assert t.requestLines[i] == if i < |db.requestLines| then db.requestLines[i] else added[i - |db.requestLines|];
    }
    forall r: nat, m: Id | Requests(t.requestLines, r, m)
      ensures CreditOf(t.requestLines, r, m) == IssuedFor(t.issueItems, r, m)
    {
      CreditSplit(db.requestLines, added, r, m);
      NoCredit(added, r, m);
      if r < |db.requests| {
        var i :| 0 <= i < |t.requestLines| && t.requestLines[i].request == r && t.requestLines[i].material == m;
        assert i < |db.requestLines| && db.requestLines[i] == t.requestLines[i];
        assert Requests(db.requestLines, r, m);
      } else {
        NoCredit(db.requestLines, r, m);
        NoneIssuedFor(db.issueItems, r, m);
      }
    }
  }

  lemma SameRequestsProgress(db: Db, t: Db)
    requires Progressed(db) && SameRequests(db, t)
    ensures Progressed(t)
  {
  }

  lemma StepProgresses(db: Db, op: Op)
    requires Progressed(db)
    ensures Progressed(Step(db, op))
  {
    if op.PostIssue? {
      if IssuePosted(db, op.company, op.issue, op.policy, op.permitted).Ok? {
        IssuePostedProgresses(db, op.company, op.issue, op.policy, op.permitted);
      }
    } else if op.RequestMaterial? {
      if RequestRefusal(db, op.company, op.order, op.wants).None? {
        RequestProgresses(db, op.company, op.order, op.wants,
            OrderFor(db, op.company, op.order, op.fefoEnabled, op.now), op.shuffles);
      }
    } else if op.ExplodeBom? {
      if ExplodeRefusal(db, op.company, op.bom, op.productionOrder, op.quantity).None? {
        RequestProgresses(db, op.company, Some(op.productionOrder), Exploded(db.masters.boms[op.bom], op.quantity),
                          OrderFor(db, op.company, Some(op.productionOrder), op.fefoEnabled, op.now), op.shuffles);
      }
    } else {
      StepKeepsRequests(db, op);
      SameRequestsProgress(db, Step(db, op));
    }
  }

  lemma RequestProgresses(
      db: Db, company: Id, productionOrder: Option<Id>, wants: seq<Want>, order: ForOrder, shuffles: seq<Shuffles>)
    requires Progressed(db)
    ensures Progressed(WantsReserved(RequestOpened(db, company, productionOrder, wants), order, wants, shuffles).db)
  {
    var t := RequestOpened(db, company, productionOrder, wants);
    RequestOpenedProgresses(db, company, productionOrder, wants);
    WantsReservedFrame(t, order, wants, shuffles);
    SameRequestsProgress(t, WantsReserved(t, order, wants, shuffles).db);
  }

  /** After every run the lines of a request carry exactly what issues against the
      request took of each requested material. */
  lemma {:induction false} RunProgresses(db: Db, ops: seq<Op>)
    requires Progressed(db)
    ensures Progressed(Run(db, ops))
    decreases |ops|
  {
    if ops == [] {
    } else {
      StepProgresses(db, ops[0]);
      RunProgresses(Step(db, ops[0]), ops[1..]);
    }
  }
}
