/** What receipts and inspections keep. */
module GrnLaws {
  import opened Base
  import opened Tables
  import opened StockEngine
  import opened Invariants
  import opened Workflow
  import opened Grn

  // ----- putting away -----

  lemma GoodPartChanges(s: Stock, good: Key, quantity: real, qcRequired: bool, kind: Kind)
    requires Agrees(s) && good.status == (if qcRequired then QualityHold else Available)
    requires AddedIfPositive(s, good, quantity, kind).Ok?
    ensures var t := AddedIfPositive(s, good, quantity, kind).value;
            var put := if quantity > 0.0 then quantity else 0.0;
            && Agrees(t) && t.batches == s.batches
            && Changes(s.rows, t.rows, good.lot, put, 0.0, if qcRequired then put else 0.0)
  {
    AddedIfChanges(s, good, quantity, kind);
  }

  lemma DamagedPartChanges(s: Stock, bad: Key, quantity: real)
    requires Agrees(s) && bad.status == Damaged && AddedIfPositive(s, bad, quantity, GrnDamage).Ok?
    ensures var t := AddedIfPositive(s, bad, quantity, GrnDamage).value;
            && Agrees(t) && t.batches == s.batches
            && Changes(s.rows, t.rows, bad.lot, if quantity > 0.0 then quantity else 0.0, 0.0, 0.0)
  {
    AddedIfChanges(s, bad, quantity, GrnDamage);
  }

  lemma PartsChange(
      s: Stock, t: Stock, lot: Lot, good: Key, put: real, qcRequired: bool, kind: Kind, bad: Key, damage: real)
    requires Agrees(s) && good.status == (if qcRequired then QualityHold else Available) && bad.status == Damaged
    requires good.lot == lot == bad.lot
    requires AddedIfPositive(s, good, put, kind).Ok?
    requires AddedIfPositive(AddedIfPositive(s, good, put, kind).value, bad, damage, GrnDamage) == Ok(t)
    ensures var kept := if put > 0.0 then put else 0.0;
            && Agrees(t) && t.batches == s.batches
            && Changes(s.rows, t.rows, lot, kept + (if damage > 0.0 then damage else 0.0), 0.0,
                       if qcRequired then kept else 0.0)
  {
    var u := AddedIfPositive(s, good, put, kind).value;
    GoodPartChanges(s, good, put, qcRequired, kind);
    DamagedPartChanges(u, bad, damage);
    var kept := if put > 0.0 then put else 0.0;
    ComposeChanges(s.rows, u.rows, t.rows, lot,
                   kept, 0.0, if qcRequired then kept else 0.0, if damage > 0.0 then damage else 0.0, 0.0, 0.0);
  }

  lemma PutAwayChanges(
      s: Stock, lot: Lot, warehouse: Id, location: Option<Id>, received: real, damage: real, qcRequired: bool)
    requires Agrees(s) && PutAway(s, lot, warehouse, location, received, damage, qcRequired).Ok?
    ensures var t := PutAway(s, lot, warehouse, location, received, damage, qcRequired).value;
            var put := if received - damage > 0.0 then received - damage else 0.0;
            && Agrees(t) && t.batches == s.batches
            && Changes(s.rows, t.rows, lot, put + (if damage > 0.0 then damage else 0.0), 0.0,
                       if qcRequired then put else 0.0)
  {
    PartsChange(s, PutAway(s, lot, warehouse, location, received, damage, qcRequired).value, lot,
                GoodKey(lot, warehouse, location, qcRequired), received - damage, qcRequired,
                if qcRequired then GrnQcHold else GrnIn, Key(lot, warehouse, location, Damaged), damage);
  }

  /** A batch not yet in the table has no stock. */
  lemma FreshBatchIsEmpty(s: Stock, w: Where)
    requires Sound(s.rows, |s.batches|) && w.batch == Some(|s.batches|)
    ensures OnHand(s.rows, w) == 0.0
  {
    OnHandNone(s.rows, w);
  }

  lemma BookLineChanges(
      p: Posting, company: Id, receipt: nat, dto: GrnInput, line: GrnLine, material: Id, poItem: Option<nat>,
      mode: QcMode, now: int)
    returns (item: GrnItem)
    requires Agrees(p.db.stock) && BookLine(p, company, receipt, dto, line, material, poItem, mode, now).Ok?
    ensures var t := BookLine(p, company, receipt, dto, line, material, poItem, mode, now).value.db;
            && t == p.db.(stock := t.stock, grnItems := p.db.grnItems + [item])
            && item.lot.batch == |p.db.stock.batches| < |t.stock.batches| && item.accepted == item.rejected == 0.0
            && item.received == line.received
            && Agrees(t.stock) && Changes(p.db.stock.rows, t.stock.rows, item.lot, Booked(item), 0.0, PutOnHold(item))
  {
    var t := BookLine(p, company, receipt, dto, line, material, poItem, mode, now).value.db;
    item := t.grnItems[|p.db.grnItems|];
    var stock := p.db.stock.(batches := t.stock.batches);
    assert Agrees(stock);
    PutAwayChanges(stock, item.lot, dto.warehouse, dto.location, line.received, line.damage, item.qcRequired);
    assert t.stock == PutAway(stock, item.lot, dto.warehouse, dto.location, line.received, line.damage,
        item.qcRequired).value;
  }

  lemma BookLineKeeps(
      p: Posting, company: Id, receipt: nat, dto: GrnInput, line: GrnLine, material: Id, poItem: Option<nat>,
      mode: QcMode, now: int)
    requires Core(p.db) && BookLine(p, company, receipt, dto, line, material, poItem, mode, now).Ok?
    requires line.received > 0.0
    ensures var t := BookLine(p, company, receipt, dto, line, material, poItem, mode, now).value.db;
            Keeps(p.db, t)
  {
    var db := p.db;
    var t := BookLine(p, company, receipt, dto, line, material, poItem, mode, now).value.db;
    var item := BookLineChanges(p, company, receipt, dto, line, material, poItem, mode, now);
    forall other: Lot
      ensures Documented(t, other) == Documented(db, other) + (if other == item.lot then Booked(item) else 0.0)
    {
      BookedAppend(db.grnItems, item, other);
    }
    ChangesKeepCore(db, t, item.lot, Booked(item), 0.0, PutOnHold(item));
    ChangesKeepSlack(db, t, item.lot, Booked(item), 0.0, PutOnHold(item));
    if AllHoldBalanced(db) {
      BookLineKeepsHold(db, t, item);
    }
  }

  /** A new line on a batch of its own starts with all its hold stock undecided. */
  lemma BookLineKeepsHold(db: Db, t: Db, item: GrnItem)
    requires Core(db) && AllHoldBalanced(db)
    requires t.grnItems == db.grnItems + [item] && item.lot.batch == |db.stock.batches|
              && item.accepted == item.rejected == 0.0
    requires Changes(db.stock.rows, t.stock.rows, item.lot, Booked(item), 0.0, PutOnHold(item))
    ensures AllHoldBalanced(t)
  {
    forall i: nat | i < |t.grnItems|
      ensures HoldBalanced(t, i)
    {
      if i < |db.grnItems| {
        assert HoldBalanced(db, i) && t.grnItems[i] == db.grnItems[i];
      } else {
        FreshBatchIsEmpty(db.stock, HoldOf(item.lot.batch));
      }
    }
  }

  lemma LineKeeps(p: Posting, company: Id, receipt: nat, dto: GrnInput, line: GrnLine, mode: QcMode, now: int)
    requires Core(p.db) && LineBooked(p, company, receipt, dto, line, mode, now).Ok?
    ensures var t := LineBooked(p, company, receipt, dto, line, mode, now).value.db;
            Keeps(p.db, t)
  {
    var material := if dto.order.Some? then p.db.poItems[line.poItem.value].material else line.material.value;
    var poItem := if dto.order.Some? then line.poItem else None;
    BookLineKeeps(p, company, receipt, dto, line, material, poItem, mode, now);
    var booked := BookLine(p, company, receipt, dto, line, material, poItem, mode, now).value.db;
    var t := LineBooked(p, company, receipt, dto, line, mode, now).value.db;
    assert t == booked.(poItems := t.poItems);
    SameStore(booked, t);
  }

  lemma {:induction false} LinesKeep(
      p: Posting, company: Id, receipt: nat, dto: GrnInput, lines: seq<GrnLine>, mode: QcMode, now: int)
    requires Core(p.db) && LinesBooked(p, company, receipt, dto, lines, mode, now).Ok?
    ensures var t := LinesBooked(p, company, receipt, dto, lines, mode, now).value.db;
            Keeps(p.db, t)
    decreases |lines|
  {
    if lines == [] {
    } else {
      LineKeeps(p, company, receipt, dto, lines[0], mode, now);
      LinesKeep(LineBooked(p, company, receipt, dto, lines[0], mode, now).value, company, receipt, dto, lines[1..],
          mode, now);
    }
  }

  /** Posting a receipt keeps every invariant, whatever its lines. */
  lemma PostedGrnKeeps(db: Db, company: Id, dto: GrnInput, policy: Policy, permitted: bool, now: int)
    requires Core(db) && PostedGrn(db, company, dto, policy, permitted, now).Ok?
    ensures var t := PostedGrn(db, company, dto, policy, permitted, now).value;
            Keeps(db, t)
  {
    var supplier := Admitted(db, company, dto, policy, permitted).value;
    var start := Opened(db, company, supplier, dto.order);
    SameStore(db, start.db);
    LinesKeep(start, company, |db.receipts|, dto, dto.lines, policy.qcMode, now);
    SameStore(LinesBooked(start, company, |db.receipts|, dto, dto.lines, policy.qcMode, now).value.db,
              PostedGrn(db, company, dto, policy, permitted, now).value);
  }

  // ----- purchase orders -----

  /** No item has received more than ordered, up to the tolerance. */
  ghost predicate WithinOrdered(items: seq<PoItem>) {
    forall i | 0 <= i < |items| :: items[i].received <= items[i].ordered + 0.0001
  }

  /** No item's received quantity fell, and nothing else about items changed. */
  ghost predicate OnlyReceivedMore(before: seq<PoItem>, after: seq<PoItem>) {
    && |after| == |before|
    && forall i | 0 <= i < |before| :: before[i].received <= after[i].received
        && after[i] == before[i].(received := after[i].received)
  }

  /** Nothing but received quantities of the given order's items differs. */
  ghost predicate ReceivesFor(before: seq<PoItem>, after: seq<PoItem>, order: Option<nat>) {
    && |after| == |before|
    && (forall i | 0 <= i < |before| :: after[i] == before[i].(received := after[i].received))
    && (forall i | 0 <= i < |before| :: Some(before[i].order) != order ==> after[i] == before[i])
  }

  predicate NoExcessShort(lines: seq<GrnLine>) {
    forall i | 0 <= i < |lines| :: lines[i].short <= lines[i].received
  }

  lemma LineReceives(p: Posting, company: Id, receipt: nat, dto: GrnInput, line: GrnLine, mode: QcMode, now: int)
    requires LineBooked(p, company, receipt, dto, line, mode, now).Ok?
    ensures var t := LineBooked(p, company, receipt, dto, line, mode, now).value.db;
            && ReceivesFor(p.db.poItems, t.poItems, dto.order)
            && (!dto.allowOverReceive && WithinOrdered(p.db.poItems) ==> WithinOrdered(t.poItems))
            && (line.short <= line.received ==> OnlyReceivedMore(p.db.poItems, t.poItems))
  {
    var t := LineBooked(p, company, receipt, dto, line, mode, now).value.db;
    if dto.order.Some? {
      var id := PoLineChecked(p.db, dto.order.value, dto, line).value;
      var item := p.db.poItems[id];
      assert t.poItems == p.db.poItems[id := item.(received := item.received + line.received - line.short)];
    } else {
      assert t.poItems == p.db.poItems;
    }
  }

  lemma {:induction false} LinesReceive(
      p: Posting, company: Id, receipt: nat, dto: GrnInput, lines: seq<GrnLine>, mode: QcMode, now: int)
    requires LinesBooked(p, company, receipt, dto, lines, mode, now).Ok?
    ensures var t := LinesBooked(p, company, receipt, dto, lines, mode, now).value.db;
            && ReceivesFor(p.db.poItems, t.poItems, dto.order)
            && (!dto.allowOverReceive && WithinOrdered(p.db.poItems) ==> WithinOrdered(t.poItems))
            && (NoExcessShort(lines) ==> OnlyReceivedMore(p.db.poItems, t.poItems))
    decreases |lines|
  {
    if lines == [] {
    } else {
      LineReceives(p, company, receipt, dto, lines[0], mode, now);
      LinesReceive(LineBooked(p, company, receipt, dto, lines[0], mode, now).value, company, receipt, dto, lines[1..],
          mode, now);
      assert NoExcessShort(lines) ==> NoExcessShort(lines[1..]);
    }
  }

  /** Without over-receipt every item stays within what was ordered, however many
      lines name it; without short quantities beyond the received ones, what was
      received never falls. */
  lemma PostedGrnReceives(db: Db, company: Id, dto: GrnInput, policy: Policy, permitted: bool, now: int)
    requires PostedGrn(db, company, dto, policy, permitted, now).Ok?
    ensures var t := PostedGrn(db, company, dto, policy, permitted, now).value;
            && (!dto.allowOverReceive && WithinOrdered(db.poItems) ==> WithinOrdered(t.poItems))
            && (NoExcessShort(dto.lines) ==> OnlyReceivedMore(db.poItems, t.poItems))
  {
    var supplier := Admitted(db, company, dto, policy, permitted).value;
    LinesReceive(Opened(db, company, supplier, dto.order), company, |db.receipts|, dto, dto.lines, policy.qcMode, now);
  }

  /** An order is closed exactly when every one of its items is covered. */
  ghost predicate ClosedWhenCovered(db: Db) {
    && (forall i | 0 <= i < |db.poItems| :: db.poItems[i].order < |db.orders|)
    && (forall o: nat | o < |db.orders| :: db.orders[o].status == PoClosed <==> Covered(db.poItems, o))
  }

  lemma PostedGrnCloses(db: Db, company: Id, dto: GrnInput, policy: Policy, permitted: bool, now: int)
    requires ClosedWhenCovered(db) && PostedGrn(db, company, dto, policy, permitted, now).Ok?
    ensures var t := PostedGrn(db, company, dto, policy, permitted, now).value;
            ClosedWhenCovered(t) && |t.orders| == |db.orders|
  {
    var supplier := Admitted(db, company, dto, policy, permitted).value;
    var start := Opened(db, company, supplier, dto.order);
    LinesReceive(start, company, |db.receipts|, dto, dto.lines, policy.qcMode, now);
    LinesKeepHeaders(start, company, |db.receipts|, dto, dto.lines, policy.qcMode, now);
    var t := PostedGrn(db, company, dto, policy, permitted, now).value;
    forall o: nat | o < |t.orders|
      ensures t.orders[o].status == PoClosed <==> Covered(t.poItems, o)
    {
      if Some(o) != dto.order {
        assert db.orders[o].status == PoClosed <==> Covered(db.poItems, o);
        assert Covered(t.poItems, o) <==> Covered(db.poItems, o) by {
          assert forall i | 0 <= i < |db.poItems| :: t.poItems[i].order == db.poItems[i].order;
          assert forall i | 0 <= i < |db.poItems| && db.poItems[i].order == o :: t.poItems[i] == db.poItems[i];
        }
      }
    }
  }

  /** A closed order stays closed under further receipts. */
  lemma ClosedStaysClosed(db: Db, company: Id, dto: GrnInput, policy: Policy, permitted: bool, now: int, o: nat)
    requires ClosedWhenCovered(db) && PostedGrn(db, company, dto, policy, permitted, now).Ok?
    requires NoExcessShort(dto.lines)
    requires o < |db.orders| && db.orders[o].status == PoClosed
    ensures var t := PostedGrn(db, company, dto, policy, permitted, now).value;
            o < |t.orders| && t.orders[o].status == PoClosed
  {
    PostedGrnCloses(db, company, dto, policy, permitted, now);
    PostedGrnReceives(db, company, dto, policy, permitted, now);
    var t := PostedGrn(db, company, dto, policy, permitted, now).value;
    assert Covered(t.poItems, o) by {
      assert Covered(db.poItems, o);
      assert forall i | 0 <= i < |db.poItems| ::
          t.poItems[i] == db.poItems[i].(received := t.poItems[i].received)
              && db.poItems[i].received <= t.poItems[i].received;
    }
  }

  lemma PlacedKeeps(db: Db, company: Id, supplier: Id, open: bool, lines: seq<PoLine>)
    requires Placed(db, company, supplier, open, lines).Ok?
    ensures var t := Placed(db, company, supplier, open, lines).value;
            && (Core(db) ==> Keeps(db, t))
            && (WithinOrdered(db.poItems) ==> WithinOrdered(t.poItems))
            && (ClosedWhenCovered(db) ==> ClosedWhenCovered(t))
  {
    var t := Placed(db, company, supplier, open, lines).value;
    SameStore(db, t);
    var n := |db.poItems|;
    assert forall i | 0 <= i < n :: t.poItems[i] == db.poItems[i];
    assert forall i | n <= i < |t.poItems| :: t.poItems[i] == NewPoItems(|db.orders|, lines)[i - n];
    if ClosedWhenCovered(db) {
      forall o: nat | o < |t.orders|
        ensures t.orders[o].status == PoClosed <==> Covered(t.poItems, o)
      {
        if o < |db.orders| {
          assert Covered(t.poItems, o) <==> Covered(db.poItems, o);
        } else {
          assert t.poItems[n].order == o && t.poItems[n].received < t.poItems[n].ordered;
        }
      }
    }
  }

  // ----- inspection -----

  /** What moves out of hold for one line; negative amounts move nothing. */
  function Leaving(line: QcLine): real {
    (if line.accepted > 0.0 then line.accepted else 0.0) + (if line.rejected > 0.0 then line.rejected else 0.0)
  }

  lemma QcStockEffect(s: Stock, hold: Key, line: QcLine)
    requires Agrees(s) && hold.status == QualityHold && QcStock(s, hold, line).Ok?
    ensures var t := QcStock(s, hold, line).value;
            && Agrees(t) && t.batches == s.batches && Changes(s.rows, t.rows, hold.lot, 0.0, 0.0, -Leaving(line))
  {
    var s1 := MovedIfPositive(s, hold, hold.(status := Available), line.accepted, QcRelease, QcAccept).value;
    MovedIfChanges(s, hold, hold.(status := Available), line.accepted, QcRelease, QcAccept);
    MovedIfChanges(s1, hold, hold.(status := Rejected), line.rejected, QcRelease, QcReject);
    var out := if line.accepted > 0.0 then line.accepted else 0.0;
    var refused := if line.rejected > 0.0 then line.rejected else 0.0;
    var s2 := QcStock(s, hold, line).value;
    assert Changes(s.rows, s1.rows, hold.lot, 0.0, 0.0, -out);
    assert Changes(s1.rows, s2.rows, hold.lot, 0.0, 0.0, -refused);
    ComposeChanges(s.rows, s1.rows, s2.rows, hold.lot, 0.0, 0.0, -out, 0.0, 0.0, -refused);
  }

  ghost predicate SameGoods(read: seq<GrnItem>, items: seq<GrnItem>) {
    && |items| == |read|
    && forall i | 0 <= i < |read| ::
         items[i] == read[i].(accepted := items[i].accepted, rejected := items[i].rejected,
             qcStatus := items[i].qcStatus)
  }

  lemma QcLineKeeps(db: Db, read: seq<GrnItem>, company: Id, receipt: nat, line: QcLine)
    requires Core(db) && SameGoods(read, db.grnItems) && QcLineApplied(db, read, company, receipt, line).Ok?
    ensures var t := QcLineApplied(db, read, company, receipt, line).value;
            && Core(t) && SameSlack(db, t) && SameGoods(read, t.grnItems) && line.item < |read|
            && Changes(db.stock.rows, t.stock.rows, read[line.item].lot.(company := company), 0.0, 0.0, -Leaving(line))
  {
    var t := QcLineApplied(db, read, company, receipt, line).value;
    var hold := OnHold(company, read[line.item]);
    QcStockEffect(db.stock, hold, line);
    forall lot: Lot
      ensures Documented(t, lot) == Documented(db, lot)
    {
      BookedUpdate(db.grnItems, line.item, t.grnItems[line.item], lot);
    }
    ChangesKeepCore(db, t, hold.lot, 0.0, 0.0, -Leaving(line));
    ChangesKeepSlack(db, t, hold.lot, 0.0, 0.0, -Leaving(line));
  }

  predicate Mentions(lines: seq<QcLine>, j: nat) {
    exists i | 0 <= i < |lines| :: lines[i].item == j
  }

  function Decides(line: QcLine): real {
    line.accepted + line.rejected
  }

  /** What the last line on an item decides. */
  function LastOn(lines: seq<QcLine>, j: nat): real {
    if lines == [] then 0.0
    else if Mentions(lines[1..], j) then LastOn(lines[1..], j)
    else if lines[0].item == j then Decides(lines[0]) else 0.0
  }

  /** What the lines on an item decide that a later line on it then overwrites. */
  function Overwritten(lines: seq<QcLine>, j: nat): real {
    if lines == [] then 0.0
    else Overwritten(lines[1..], j) + (if lines[0].item == j && Mentions(lines[1..], j) then Decides(lines[0]) else 0.0)
  }

  function Moves(lines: seq<QcLine>, j: nat): real {
    if lines == [] then 0.0 else (if lines[0].item == j then Decides(lines[0]) else 0.0) + Moves(lines[1..], j)
  }

  lemma {:induction false} MovesSplit(lines: seq<QcLine>, j: nat)
    ensures Moves(lines, j) == LastOn(lines, j) + Overwritten(lines, j)
    ensures !Mentions(lines, j) ==> Moves(lines, j) == 0.0
  {
    if lines == [] {
    } else {
      MovesSplit(lines[1..], j);
      assert Mentions(lines[1..], j) ==> Mentions(lines, j) by {
        if Mentions(lines[1..], j) {
          var i :| 0 <= i < |lines[1..]| && lines[1..][i].item == j;
          assert lines[i + 1].item == j;
        }
      }
      assert lines[0].item == j ==> Mentions(lines, j);
    }
  }

  ghost predicate NonNegative(lines: seq<QcLine>) {
    forall i | 0 <= i < |lines| :: lines[i].accepted >= 0.0 && lines[i].rejected >= 0.0
  }

  /** Every line moves its stock, but only the last line on an item counts. */
  lemma {:induction false} QcLinesEffect(
      db: Db, read: seq<GrnItem>, company: Id, receipt: nat, lines: seq<QcLine>, j: nat)
    requires Core(db) && SameGoods(read, db.grnItems) && QcLinesApplied(db, read, company, receipt, lines).Ok?
    requires NonNegative(lines) && j < |read|
    ensures var t := QcLinesApplied(db, read, company, receipt, lines).value;
            && Core(t) && SameGoods(read, t.grnItems)
            && OnHand(t.stock.rows, HoldOf(read[j].lot.batch))
                == OnHand(db.stock.rows, HoldOf(read[j].lot.batch)) - Moves(lines, j)
            && t.grnItems[j].accepted + t.grnItems[j].rejected
               == (if Mentions(lines, j) then read[j].accepted + read[j].rejected + LastOn(lines, j)
                   else db.grnItems[j].accepted + db.grnItems[j].rejected)
    decreases |lines|
  {
    if lines == [] {
    } else {
      var line := lines[0];
      var rest := lines[1..];
      var u := QcLineApplied(db, read, company, receipt, line).value;
      QcLineKeeps(db, read, company, receipt, line);
      assert NonNegative(rest);
      QcLinesEffect(u, read, company, receipt, rest, j);
      assert ReceivedApart(db.grnItems, |db.stock.batches|);
      assert read[line.item].lot.batch == read[j].lot.batch <==> line.item == j;
      assert Mentions(lines, j) <==> line.item == j || Mentions(rest, j) by {
        if Mentions(rest, j) {
          var i :| 0 <= i < |rest| && rest[i].item == j;
          assert lines[i + 1].item == j;
        }
        if Mentions(lines, j) && line.item != j {
          var i :| 0 <= i < |lines| && lines[i].item == j;
          assert rest[i - 1].item == j;
        }
      }
    }
  }

  /** Inspection keeps every invariant but hold balance on any lines at all. */
  lemma {:induction false} QcLinesKeep(db: Db, read: seq<GrnItem>, company: Id, receipt: nat, lines: seq<QcLine>)
    requires Core(db) && SameGoods(read, db.grnItems) && QcLinesApplied(db, read, company, receipt, lines).Ok?
    ensures var t := QcLinesApplied(db, read, company, receipt, lines).value;
            Core(t) && SameSlack(db, t)
    decreases |lines|
  {
    if lines == [] {
    } else {
      QcLineKeeps(db, read, company, receipt, lines[0]);
      QcLinesKeep(QcLineApplied(db, read, company, receipt, lines[0]).value, read, company, receipt, lines[1..]);
    }
  }

  lemma QcAppliedKeeps(db: Db, company: Id, receipt: nat, lines: seq<QcLine>, policy: Policy)
    requires Core(db) && QcApplied(db, company, receipt, lines, policy).Ok?
    ensures var t := QcApplied(db, company, receipt, lines, policy).value;
            Core(t) && SameSlack(db, t)
  {
    QcLinesKeep(db, db.grnItems, company, receipt, lines);
    SameStore(QcLinesApplied(db, db.grnItems, company, receipt, lines).value,
              QcApplied(db, company, receipt, lines, policy).value);
  }

  /** A line that another line on the same item follows decides nothing. */
  predicate OnlyLastDecides(lines: seq<QcLine>) {
    forall i, k | 0 <= i < k < |lines| :: lines[i].item == lines[k].item
        ==> lines[i].accepted == 0.0 && lines[i].rejected == 0.0
  }

  lemma {:induction false} OverwrittenIsZero(lines: seq<QcLine>, j: nat)
    requires NonNegative(lines)
    ensures Overwritten(lines, j) >= 0.0
    ensures OnlyLastDecides(lines) ==> Overwritten(lines, j) == 0.0
  {
    if lines == [] {
    } else {
      var rest := lines[1..];
      assert NonNegative(rest);
      OverwrittenIsZero(rest, j);
      if OnlyLastDecides(lines) {
        assert OnlyLastDecides(rest);
        if lines[0].item == j && Mentions(rest, j) {
          var i :| 0 <= i < |rest| && rest[i].item == j;
          assert lines[i + 1].item == lines[0].item;
        }
      }
    }
  }

  lemma {:induction false} OverwrittenShows(lines: seq<QcLine>, i: nat, k: nat)
    requires NonNegative(lines) && i < k < |lines| && lines[i].item == lines[k].item
    ensures Overwritten(lines, lines[i].item) >= Decides(lines[i])
  {
    var rest := lines[1..];
    assert NonNegative(rest);
    if i == 0 {
      assert rest[k - 1].item == lines[0].item;
      OverwrittenIsZero(rest, lines[0].item);
    } else {
      OverwrittenShows(rest, i - 1, k - 1);
    }
  }

  /** An inspection keeps every line's hold stock in balance exactly when no line
      that another line on the same item follows decides anything: the later line
      overwrites the counters of the earlier one, whose stock has moved. */
  lemma QcBalancesExactlyWhen(db: Db, company: Id, receipt: nat, lines: seq<QcLine>, policy: Policy)
    requires Core(db) && AllHoldBalanced(db) && NonNegative(lines)
    requires QcApplied(db, company, receipt, lines, policy).Ok?
    ensures AllHoldBalanced(QcApplied(db, company, receipt, lines, policy).value) <==> OnlyLastDecides(lines)
  {
    var t := QcApplied(db, company, receipt, lines, policy).value;
    QcLinesTouchItems(db, db.grnItems, company, receipt, lines);
    forall j: nat | j < |db.grnItems|
      ensures HoldBalanced(t, j) <==> Overwritten(lines, j) == 0.0
    {
      QcLinesEffect(db, db.grnItems, company, receipt, lines, j);
      MovesSplit(lines, j);
      assert HoldBalanced(db, j);
    }
    if OnlyLastDecides(lines) {
      forall j: nat | j < |t.grnItems|
        ensures HoldBalanced(t, j)
      {
        OverwrittenIsZero(lines, j);
      }
    } else {
      var i, k :| 0 <= i < k < |lines| && lines[i].item == lines[k].item
          && !(lines[i].accepted == 0.0 && lines[i].rejected == 0.0);
      OverwrittenShows(lines, i, k);
      QcItemsExist(db, db.grnItems, company, receipt, lines, i);
      assert !HoldBalanced(t, lines[i].item);
    }
  }

  lemma {:induction false} QcItemsExist(
      db: Db, read: seq<GrnItem>, company: Id, receipt: nat, lines: seq<QcLine>, i: nat)
    requires |read| == |db.grnItems| && QcLinesApplied(db, read, company, receipt, lines).Ok? && i < |lines|
    ensures lines[i].item < |read|
    decreases |lines|
  {
    if i == 0 {
    } else {
      assert lines[i] == lines[1..][i - 1];
      QcItemsExist(QcLineApplied(db, read, company, receipt, lines[0]).value, read, company, receipt, lines[1..], i
          - 1);
    }
  }

  // ----- leaving inspection -----

  /** No stock of the receipt's lines is left in quality hold. */
  ghost predicate HoldCleared(db: Db, receipt: nat) {
    forall j: nat | j < |db.grnItems|
        && db.grnItems[j].receipt == receipt :: OnHand(db.stock.rows, HoldOf(db.grnItems[j].lot.batch)) == 0.0
  }

  /** An inspection clears the receipt's hold stock exactly when its lines decide, for
      every item, all that was undecided. */
  lemma QcClearsHoldExactlyWhen(db: Db, company: Id, receipt: nat, lines: seq<QcLine>, policy: Policy)
    requires Core(db) && AllHoldBalanced(db) && NonNegative(lines)
    requires QcApplied(db, company, receipt, lines, policy).Ok?
    ensures HoldCleared(QcApplied(db, company, receipt, lines, policy).value, receipt)
            <==> forall j: nat | j < |db.grnItems| && db.grnItems[j].receipt == receipt ::
                   Moves(lines, j) == PutOnHold(db.grnItems[j]) - db.grnItems[j].accepted - db.grnItems[j].rejected
  {
    var t := QcApplied(db, company, receipt, lines, policy).value;
    QcLinesTouchItems(db, db.grnItems, company, receipt, lines);
    forall j: nat | j < |db.grnItems|
      ensures t.grnItems[j].receipt == db.grnItems[j].receipt
      ensures OnHand(t.stock.rows, HoldOf(t.grnItems[j].lot.batch)) == 0.0
              <==> Moves(lines, j) == PutOnHold(db.grnItems[j]) - db.grnItems[j].accepted - db.grnItems[j].rejected
    {
      QcLinesEffect(db, db.grnItems, company, receipt, lines, j);
      assert HoldBalanced(db, j);
    }
  }

  lemma {:induction false} QcLinesPending(
      db: Db, read: seq<GrnItem>, company: Id, receipt: nat, lines: seq<QcLine>, j: nat)
    requires |read| == |db.grnItems| && QcLinesApplied(db, read, company, receipt, lines).Ok? && j < |db.grnItems|
    ensures |QcLinesApplied(db, read, company, receipt, lines).value.grnItems| == |db.grnItems|
    ensures var item := QcLinesApplied(db, read, company, receipt, lines).value.grnItems[j];
            && item.receipt == db.grnItems[j].receipt && item.qcRequired == db.grnItems[j].qcRequired
            && (item.qcStatus.QcPending? <==> db.grnItems[j].qcStatus.QcPending? && !Mentions(lines, j))
    decreases |lines|
  {
    if lines == [] {
    } else {
      var u := QcLineApplied(db, read, company, receipt, lines[0]).value;
      QcLinesPending(u, read, company, receipt, lines[1..], j);
      assert Mentions(lines, j) <==> lines[0].item == j || Mentions(lines[1..], j);
    }
  }

  /** A receipt leaves inspection exactly when every pending item of it is mentioned,
      whatever the verdict and however little of it was decided. */
  lemma QcLeavesPendingExactlyWhen(db: Db, company: Id, receipt: nat, lines: seq<QcLine>, policy: Policy)
    requires QcApplied(db, company, receipt, lines, policy).Ok?
    ensures QcApplied(db, company, receipt, lines, policy).value.receipts[receipt].status != PendingQc
            <==> forall j: nat | j < |db.grnItems| && db.grnItems[j].receipt == receipt ::
                   db.grnItems[j].qcRequired && db.grnItems[j].qcStatus.QcPending? ==> Mentions(lines, j)
  {
    var t := QcLinesApplied(db, db.grnItems, company, receipt, lines).value;
    QcLinesTouchItems(db, db.grnItems, company, receipt, lines);
    forall j: nat | j < |db.grnItems|
      ensures t.grnItems[j].receipt == db.grnItems[j].receipt && t.grnItems[j].qcRequired == db.grnItems[j].qcRequired
      ensures t.grnItems[j].qcStatus.QcPending? <==> db.grnItems[j].qcStatus.QcPending? && !Mentions(lines, j)
    {
      QcLinesPending(db, db.grnItems, company, receipt, lines, j);
    }
  }

  /** So a receipt can leave inspection with all its hold stock: one verdict on its
      only item that decides nothing completes it. */
  lemma HoldVerdictCompletes(db: Db, company: Id, receipt: nat, item: nat, policy: Policy)
    requires receipt < |db.receipts| && db.receipts[receipt].company == company
              && db.receipts[receipt].status == PendingQc
    requires item < |db.grnItems| && db.grnItems[item].accepted == db.grnItems[item].rejected == 0.0
    requires forall j | 0 <= j < |db.grnItems| :: db.grnItems[j].receipt == receipt <==> j == item
    ensures var r := QcApplied(db, company, receipt, [QcLine(item, VerdictHold, 0.0, 0.0)], policy);
            r.Ok? && r.value.stock == db.stock && r.value.receipts[receipt].status == Completed
  {
    var line := QcLine(item, VerdictHold, 0.0, 0.0);
    var t := QcLineApplied(db, db.grnItems, company, receipt, line).value;
    assert [line][1..] == [];
    assert QcLinesApplied(db, db.grnItems, company, receipt, [line])
        == QcLinesApplied(t, db.grnItems, company, receipt, []) == Ok(t);
    assert t.grnItems == db.grnItems[item := db.grnItems[item].(qcStatus := QcHeld)];
  }
}
