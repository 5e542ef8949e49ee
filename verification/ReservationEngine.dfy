/** Stock set aside for production: reserve, release, and consume on issue. */
module ReservationEngine {
  import opened Base
  import opened Sequences
  import opened Sorting
  import opened Tables
  import opened StockEngine
  import FifoEngine

  datatype ReserveInput = ReserveInput(
    company: Id,
    material: Id,
    quantity: real,
    productionOrder: Option<Id>,
    priority: Option<int>,
    batch: Option<nat>,
    warehouse: Option<Id>)

  // ----- reserve -----

  /** The available row a reservation draws on: the first suggested one when no
      batch is named, else a row of that batch holding the whole quantity. */
  function SourceRow(db: Db, p: ReserveInput, fefoEnabled: bool): Result<Key> {
    if p.batch.None? then
      var s := FifoEngine.Suggest(db, p.company, p.material, p.quantity, p.warehouse, Available, fefoEnabled);
      if !s.fullyCovered || s.picks == [] then Err(InsufficientStock) else Ok(s.picks[0].row.key)
    else
      var i := Find(db.stock.rows, OnBatch(p), Some(p.quantity));
      if i == |db.stock.rows| then Err(InsufficientStock) else Ok(db.stock.rows[i].key)
  }

  function OnBatch(p: ReserveInput): Where
    requires p.batch.Some?
  {
    Where(Some(p.company), Some(p.material), p.batch, p.warehouse, None, Some(Available))
  }

  predicate KnownMaterial(masters: Masters, company: Id, material: Id) {
    material in masters.materials && masters.materials[material].company == company
  }

  function NewReservation(p: ReserveInput, batch: nat, now: int): Reservation {
    Reservation(p.company, p.material, Some(batch), p.productionOrder, p.quantity,
                if p.priority.Some? then p.priority.value else 5, now, Active)
  }

  function Created(db: Db, p: ReserveInput, fefoEnabled: bool, now: int): Result<Db> {
    if p.quantity <= 0.0 then Err(QuantityNotPositive)
    else if !KnownMaterial(db.masters, p.company, p.material) then Err(NotFound)
    else
      var from :- SourceRow(db, p, fefoEnabled);
      var stock :- Moved(db.stock, from, from.(status := Reserved), p.quantity, ReserveOut, ReserveIn);
      Ok(db.(stock := stock, reservations := db.reservations + [NewReservation(p, from.lot.batch, now)]))
  }

  method ChooseSource(db: Database, p: ReserveInput, fefoEnabled: bool) returns (r: Result<Key>)
    ensures r == SourceRow(db.State(), p, fefoEnabled)
  {
    if p.batch.None? {
      var suggestion := FifoEngine.SuggestBatches(db, p.company, p.material, p.quantity, p.warehouse, Available,
          fefoEnabled);
      if !suggestion.fullyCovered || suggestion.picks == [] {
        return Err(InsufficientStock);
      }
      return Ok(suggestion.picks[0].row.key);
    }
    var i := Find(db.rows, OnBatch(p), Some(p.quantity));
    if i == |db.rows| {
      return Err(InsufficientStock);
    }
    return Ok(db.rows[i].key);
  }

  method Create(db: Database, p: ReserveInput, fefoEnabled: bool, now: int) returns (r: Result<nat>)
    modifies db
    ensures match Created(old(db.State()), p, fefoEnabled, now)
            case Ok(s) => r == Ok(|s.reservations| - 1) && db.State() == s
            case Err(e) => r == Err(e) && db.State() == old(db.State())
  {
    if p.quantity <= 0.0 {
      return Err(QuantityNotPositive);
    }
    if !KnownMaterial(db.masters, p.company, p.material) {
      return Err(NotFound);
    }
    var from :- ChooseSource(db, p, fefoEnabled);
    var before := db.State();
    var moved := Move(db, from, from.(status := Reserved), p.quantity, ReserveOut, ReserveIn);
    if moved.Err? {
      db.Rollback(before);
      return Err(moved.error);
    }
    db.reservations := db.reservations + [NewReservation(p, from.lot.batch, now)];
    return Ok(|db.reservations| - 1);
  }

  // ----- release -----

  function ReleasedIn(db: Db, company: Id, id: nat): Result<Db> {
    if id >= |db.reservations| then Err(NotFound)
    else
      var res := db.reservations[id];
      if res.company != company || !res.status.Active? || res.batch.None? then Err(NotFound)
      else
        var i := Find(db.stock.rows, OfLotIn(Lot(company, res.material, res.batch.value), Reserved),
            Some(res.quantity));
        if i == |db.stock.rows| then Err(InsufficientStock)
        else
          var from := db.stock.rows[i].key;
          var stock :- Moved(db.stock, from, from.(status := Available), res.quantity, UnreserveOut, UnreserveIn);
          Ok(db.(stock := stock, reservations := db.reservations[id := res.(status := Released)]))
  }

  method Release(db: Database, company: Id, id: nat) returns (r: Result<()>)
    modifies db
    ensures match ReleasedIn(old(db.State()), company, id)
            case Ok(s) => r.Ok? && db.State() == s
            case Err(e) => r == Err(e) && db.State() == old(db.State())
  {
    if id >= |db.reservations| {
      return Err(NotFound);
    }
    var res := db.reservations[id];
    if res.company != company || !res.status.Active? || res.batch.None? {
      return Err(NotFound);
    }
    var i := Find(db.rows, OfLotIn(Lot(company, res.material, res.batch.value), Reserved), Some(res.quantity));
    if i == |db.rows| {
      return Err(InsufficientStock);
    }
    var from := db.rows[i].key;
    var before := db.State();
    var moved := Move(db, from, from.(status := Available), res.quantity, UnreserveOut, UnreserveIn);
    if moved.Err? {
      db.Rollback(before);
      return Err(moved.error);
    }
    db.reservations := db.reservations[id := res.(status := Released)];
    return Ok(());
  }

  // ----- consume on issue -----

  datatype ConsumeInput = ConsumeInput(
    lot: Lot,
    warehouse: Id,
    location: Option<Id>,
    quantity: real,
    productionOrder: Option<Id>)

  datatype Candidate = Candidate(id: nat, reservation: Reservation)

  /** Active reservations an issue of a lot may use up. */
  predicate Matches(r: Reservation, lot: Lot, productionOrder: Option<Id>) {
    && r.status.Active? && r.company == lot.company && r.material == lot.material
    && (productionOrder.None? || r.productionOrder == productionOrder)
    && (r.batch.None? || r.batch.value == lot.batch)
  }

  function Candidates(rs: seq<Reservation>, lot: Lot, productionOrder: Option<Id>): seq<Candidate> {
    if rs == [] then []
    else
      var n := |rs| - 1;
      Candidates(rs[..n], lot, productionOrder)
      + (if Matches(rs[n], lot, productionOrder) then [Candidate(n, rs[n])] else [])
  }

  predicate Sooner(a: Candidate, b: Candidate) {
    || a.reservation.priority < b.reservation.priority
    || (a.reservation.priority == b.reservation.priority && a.reservation.createdAt <= b.reservation.createdAt)
  }

  function Ranked(rs: seq<Reservation>, lot: Lot, productionOrder: Option<Id>): seq<Candidate> {
    OrderBy(Candidates(rs, lot, productionOrder), Sooner)
  }

  /** The consume loop: whole reservations while they fit, then a part of one. */
  function Drained(rs: seq<Reservation>, cands: seq<Candidate>, remaining: real): (drained: seq<Reservation>)
    requires InTable(cands, |rs|)
    ensures |drained| == |rs|
    decreases |cands|
  {
    if cands == [] || remaining <= 0.0 then rs
    else
      var r := cands[0].reservation;
      var id := cands[0].id;
      if r.quantity <= remaining then
        Drained(rs[id := r.(status := Consumed)], cands[1..], remaining - r.quantity)
      else rs[id := r.(quantity := r.quantity - remaining)]
  }

  ghost predicate InTable(cands: seq<Candidate>, size: nat) {
    forall i | 0 <= i < |cands| :: cands[i].id < size
  }

  function ReservedStock(p: ConsumeInput): Where {
    OfLotIn(p.lot, Reserved).(warehouse := Some(p.warehouse),
                              location := if p.location.Some? then Some(p.location) else None)
  }

  function ConsumedIn(db: Db, p: ConsumeInput): Result<Db> {
    var i := Find(db.stock.rows, ReservedStock(p), Some(p.quantity));
    if i == |db.stock.rows| then Err(InsufficientStock)
    else
      var stock :- Deducted(db.stock, db.stock.rows[i].key, p.quantity, Issued);
      RankedAreRows(db.reservations, p.lot, p.productionOrder);
      Ok(db.(stock := stock,
             reservations := Drained(db.reservations, Ranked(db.reservations, p.lot, p.productionOrder), p.quantity)))
  }

  /** The loop over the ranked reservations. */
  method UseUp(db: Database, reservations: seq<Candidate>, quantity: real)
    requires InTable(reservations, |db.reservations|)
    modifies db`reservations
    ensures db.reservations == Drained(old(db.reservations), reservations, quantity)
  {
    var remaining := quantity;
    var k := 0;
    while k < |reservations| && remaining > 0.0
      invariant 0 <= k <= |reservations|
      invariant |db.reservations| == old(|db.reservations|)
      invariant Drained(db.reservations, reservations[k..], remaining)
             == Drained(old(db.reservations), reservations, quantity)
    {
      var c := reservations[k];
      assert reservations[k..][1..] == reservations[k + 1..];
      if c.reservation.quantity <= remaining {
        remaining := remaining - c.reservation.quantity;
        db.reservations := db.reservations[c.id := c.reservation.(status := Consumed)];
      } else {
        db.reservations := db.reservations[c.id := c.reservation.(quantity := c.reservation.quantity - remaining)];
        remaining := 0.0;
      }
      k := k + 1;
    }
  }

  /** Runs inside the issue's transaction. */
  method ConsumeForIssue(db: Database, p: ConsumeInput) returns (r: Result<()>)
    modifies db
    ensures match ConsumedIn(old(db.State()), p)
            case Ok(s) => r.Ok? && db.State() == s
            case Err(e) => r == Err(e) && db.State() == old(db.State())
  {
    var i := Find(db.rows, ReservedStock(p), Some(p.quantity));
    if i == |db.rows| {
      return Err(InsufficientStock);
    }
    var _ :- Deduct(db, db.rows[i].key, p.quantity, Issued);
    RankedAreRows(db.reservations, p.lot, p.productionOrder);
    UseUp(db, Ranked(db.reservations, p.lot, p.productionOrder), p.quantity);
    return Ok(());
  }

  // ----- ranking -----

  /** Candidates that still are rows of the table, each once. */
  ghost predicate RowsOf(cands: seq<Candidate>, rs: seq<Reservation>) {
    && InTable(cands, |rs|)
    && (forall i | 0 <= i < |cands| :: rs[cands[i].id] == cands[i].reservation)
    && (forall i, j | 0 <= i < j < |cands| :: cands[i].id != cands[j].id)
  }

  lemma {:induction false} CandidatesAreRows(rs: seq<Reservation>, lot: Lot, productionOrder: Option<Id>)
    ensures RowsOf(Candidates(rs, lot, productionOrder), rs)
    ensures forall c | c in Candidates(rs, lot, productionOrder) :: Matches(c.reservation, lot, productionOrder)
    ensures forall i | 0 <= i < |rs| && Matches(rs[i], lot, productionOrder) ::
              Candidate(i, rs[i]) in Candidates(rs, lot, productionOrder)
  {
    if rs == [] {
    } else {
      CandidatesAreRows(rs[..|rs| - 1], lot, productionOrder);
    }
  }

  /** The ranked candidates are exactly the matching rows, each once, in
      (priority, createdAt) order. */
  lemma RankedAreRows(rs: seq<Reservation>, lot: Lot, productionOrder: Option<Id>)
    ensures var ranked := Ranked(rs, lot, productionOrder);
            && RowsOf(ranked, rs)
            && Sorted(ranked, Sooner)
            && AllMatch(ranked, lot, productionOrder)
            && (forall i | 0 <= i < |rs| && Matches(rs[i], lot, productionOrder) :: Candidate(i, rs[i]) in ranked)
  {
    var cands := Candidates(rs, lot, productionOrder);
    var ranked := Ranked(rs, lot, productionOrder);
    CandidatesAreRows(rs, lot, productionOrder);
    OrderByOrders(cands, Sooner);
    DifferInAnyOrder(cands, ranked);
    SameElements(cands, ranked);
    forall i, j | 0 <= i < j < |ranked|
      ensures ranked[i].id != ranked[j].id
    {
      assert ranked[i] in cands && ranked[j] in cands;
    }
    forall i | 0 <= i < |ranked|
      ensures ranked[i].id < |rs| && rs[ranked[i].id] == ranked[i].reservation
      ensures Matches(ranked[i].reservation, lot, productionOrder)
    {
      assert ranked[i] in cands;
    }
  }

  // ----- what the consume loop does -----

  function Wanted(cands: seq<Candidate>): real {
    if cands == [] then 0.0 else Wanted(cands[..|cands| - 1]) + cands[|cands| - 1].reservation.quantity
  }

  lemma {:induction false} WantedHead(cands: seq<Candidate>)
    requires cands != []
    ensures Wanted(cands) == cands[0].reservation.quantity + Wanted(cands[1..])
  {
    if |cands| > 1 {
      var n := |cands| - 1;
      WantedHead(cands[..n]);
      assert cands[..n][1..] == cands[1..][..n - 1];
    } else {
      assert cands[..0] == [] && cands[1..] == [];
    }
  }

  ghost predicate PositiveEach(cands: seq<Candidate>) {
    forall i | 0 <= i < |cands| :: cands[i].reservation.quantity > 0.0
  }

  lemma {:induction false} WantedMonotone(cands: seq<Candidate>, j: nat, k: nat)
    requires PositiveEach(cands) && j <= k <= |cands|
    ensures 0.0 <= Wanted(cands[..j]) <= Wanted(cands[..k])
  {
    if k == 0 {
    } else {
      assert cands[..k][..k - 1] == cands[..k - 1];
      WantedMonotone(cands, if j < k then j else k - 1, k - 1);
    }
  }

  /** What becomes of a ranked reservation when `ahead` is wanted before it. */
  function Fate(r: Reservation, ahead: real, remaining: real): Reservation {
    if ahead >= remaining then r
    else if ahead + r.quantity <= remaining then r.(status := Consumed)
    else r.(quantity := ahead + r.quantity - remaining)
  }

  lemma RowsOfRest(rs: seq<Reservation>, cands: seq<Candidate>, r: Reservation)
    requires RowsOf(cands, rs) && cands != []
    ensures RowsOf(cands[1..], rs[cands[0].id := r])
  {
    var rest := cands[1..];
    forall i | 0 <= i < |rest|
      ensures rest[i].id < |rs| && rs[cands[0].id := r][rest[i].id] == rest[i].reservation
    {
      assert rest[i] == cands[i + 1];
    }
  }

  lemma {:induction false} DrainedElsewhere(rs: seq<Reservation>, cands: seq<Candidate>, remaining: real, id: nat)
    requires InTable(cands, |rs|) && id < |rs|
    requires forall k | 0 <= k < |cands| :: cands[k].id != id
    ensures Drained(rs, cands, remaining)[id] == rs[id]
    decreases |cands|
  {
    if cands == [] || remaining <= 0.0 || cands[0].reservation.quantity > remaining {
    } else {
      var c := cands[0];
      DrainedElsewhere(rs[c.id := c.reservation.(status := Consumed)], cands[1..], remaining
          - c.reservation.quantity, id);
    }
  }

  /** The loop in closed form: the k-th ranked reservation is used up, reduced or
      left alone according to what is wanted ahead of it. So one is touched only
      after all earlier ones are consumed, at most one is left partly reduced, and
      what stays active stays positive. */
  lemma {:induction false} DrainedInOrder(rs: seq<Reservation>, cands: seq<Candidate>, remaining: real, k: nat)
    requires RowsOf(cands, rs) && PositiveEach(cands) && k < |cands|
    ensures Drained(rs, cands, remaining)[cands[k].id] == Fate(cands[k].reservation, Wanted(cands[..k]), remaining)
    decreases |cands|
  {
    WantedMonotone(cands, 0, k);
    if remaining <= 0.0 {
    } else {
      var c := cands[0];
      var rest := cands[1..];
      var rs' := rs[c.id := c.reservation.(status := Consumed)];
      if k > 0 {
        WantedHead(cands[..k]);
        assert cands[..k][1..] == rest[..k - 1];
        WantedMonotone(rest, 0, k - 1);
      }
      if c.reservation.quantity <= remaining {
        RowsOfRest(rs, cands, c.reservation.(status := Consumed));
        if k > 0 {
          DrainedInOrder(rs', rest, remaining - c.reservation.quantity, k - 1);
        } else {
          DrainedElsewhere(rs', rest, remaining - c.reservation.quantity, c.id);
        }
      }
    }
  }

  /** Quantity actively reserved of a lot. */
  function Held(rs: seq<Reservation>, lot: Lot): real {
    if rs == [] then 0.0 else Held(rs[..|rs| - 1], lot) + HeldBy(rs[|rs| - 1], lot)
  }

  function HeldBy(r: Reservation, lot: Lot): real {
    (if r.status.Active? && r.batch == Some(lot.batch) && r.company == lot.company
        && r.material == lot.material then r.quantity else 0.0)
  }

  lemma {:induction false} HeldUpdate(rs: seq<Reservation>, i: nat, r: Reservation, lot: Lot)
    requires i < |rs|
    ensures Held(rs[i := r], lot) == Held(rs, lot) - HeldBy(rs[i], lot) + HeldBy(r, lot)
  {
    var n := |rs| - 1;
    if i == n {
      assert rs[i := r][..n] == rs[..n];
    } else {
      HeldUpdate(rs[..n], i, r, lot);
      assert rs[i := r][..n] == rs[..n][i := r];
    }
  }

  lemma HeldAppend(rs: seq<Reservation>, r: Reservation, lot: Lot)
    ensures Held(rs + [r], lot) == Held(rs, lot) + HeldBy(r, lot)
  {
    assert (rs + [r])[..|rs|] == rs;
  }

  /** Reservations as the engine writes them: on a batch, positive while active. */
  ghost predicate OnBatches(rs: seq<Reservation>) {
    forall i | 0 <= i < |rs| :: rs[i].batch.Some? && (rs[i].status.Active? ==> rs[i].quantity > 0.0)
  }

  lemma OnBatchesUpdate(rs: seq<Reservation>, i: nat, r: Reservation)
    requires OnBatches(rs) && i < |rs| && r.batch.Some? && (r.status.Active? ==> r.quantity > 0.0)
    ensures OnBatches(rs[i := r])
  {
  }

  lemma {:induction false} DrainedOnBatches(rs: seq<Reservation>, cands: seq<Candidate>, remaining: real)
    requires RowsOf(cands, rs) && OnBatches(rs)
    ensures OnBatches(Drained(rs, cands, remaining))
    decreases |cands|
  {
    if cands == [] || remaining <= 0.0 {
    } else {
      var c := cands[0];
      assert rs[c.id].batch.Some?;
      if c.reservation.quantity <= remaining {
        RowsOfRest(rs, cands, c.reservation.(status := Consumed));
        OnBatchesUpdate(rs, c.id, c.reservation.(status := Consumed));
        DrainedOnBatches(rs[c.id := c.reservation.(status := Consumed)], cands[1..], remaining
            - c.reservation.quantity);
      }
    }
  }

  ghost predicate AllMatch(cands: seq<Candidate>, lot: Lot, po: Option<Id>) {
    forall i | 0 <= i < |cands| :: Matches(cands[i].reservation, lot, po)
  }

  /** The loop lowers the lot's active reservations by exactly the smaller of the
      issued quantity and their matching total, and no other lot's. */
  lemma {:induction false} DrainedLowersHeld(
    rs: seq<Reservation>, cands: seq<Candidate>, lot: Lot, po: Option<Id>, remaining: real, other: Lot)
    requires RowsOf(cands, rs) && OnBatches(rs) && AllMatch(cands, lot, po) && remaining >= 0.0
    ensures Held(Drained(rs, cands, remaining), other)
            == Held(rs, other) - (if other == lot then Min(remaining, Wanted(cands)) else 0.0)
    decreases |cands|
  {
    if cands == [] {
    } else {
      var c := cands[0];
      HeadWanted(rs, cands, lot, po);
      if remaining <= 0.0 {
      } else if c.reservation.quantity <= remaining {
        FirstConsumed(rs, cands, lot, po, other);
        DrainedLowersHeld(rs[c.id := c.reservation.(status := Consumed)], cands[1..], lot, po, remaining
            - c.reservation.quantity, other);
      } else {
        UpdateLowersHeld(rs, c, c.reservation.(quantity := c.reservation.quantity - remaining), lot, po, remaining,
            other);
      }
    }
  }

  lemma HeadWanted(rs: seq<Reservation>, cands: seq<Candidate>, lot: Lot, po: Option<Id>)
    requires RowsOf(cands, rs) && OnBatches(rs) && AllMatch(cands, lot, po) && cands != []
    ensures Wanted(cands) == cands[0].reservation.quantity + Wanted(cands[1..])
    ensures cands[0].reservation.quantity > 0.0 && Wanted(cands[1..]) >= 0.0
  {
    WantedHead(cands);
    AllWanted(rs, cands, lot, po);
    AllWanted(rs, cands[1..], lot, po);
  }

  lemma FirstConsumed(rs: seq<Reservation>, cands: seq<Candidate>, lot: Lot, po: Option<Id>, other: Lot)
    requires RowsOf(cands, rs) && OnBatches(rs) && AllMatch(cands, lot, po) && cands != []
    ensures var c := cands[0];
            var rs' := rs[c.id := c.reservation.(status := Consumed)];
            && RowsOf(cands[1..], rs') && OnBatches(rs') && AllMatch(cands[1..], lot, po)
            && Held(rs', other) == Held(rs, other) - (if other == lot then c.reservation.quantity else 0.0)
  {
    var c := cands[0];
    var r := c.reservation.(status := Consumed);
    assert rs[c.id] == c.reservation;
    UpdateLowersHeld(rs, c, r, lot, po, c.reservation.quantity, other);
    OnBatchesUpdate(rs, c.id, r);
    RowsOfRest(rs, cands, r);
  }

  lemma UpdateLowersHeld(
      rs: seq<Reservation>, c: Candidate, r: Reservation, lot: Lot, po: Option<Id>, drop: real, other: Lot)
    requires OnBatches(rs) && c.id < |rs| && rs[c.id] == c.reservation && Matches(c.reservation, lot, po)
    requires r.status.Active? ==> r == c.reservation.(quantity := c.reservation.quantity - drop)
    requires !r.status.Active? ==> drop == c.reservation.quantity
    ensures Held(rs[c.id := r], other) == Held(rs, other) - (if other == lot then drop else 0.0)
  {
    HeldUpdate(rs, c.id, r, other);
    assert rs[c.id].batch.Some?;
  }

  lemma AllWanted(rs: seq<Reservation>, cands: seq<Candidate>, lot: Lot, po: Option<Id>)
    requires RowsOf(cands, rs) && OnBatches(rs) && AllMatch(cands, lot, po)
    ensures PositiveEach(cands) && Wanted(cands) >= 0.0
  {
    forall i | 0 <= i < |cands|
      ensures cands[i].reservation.quantity > 0.0
    {
      assert rs[cands[i].id] == cands[i].reservation && Matches(cands[i].reservation, lot, po);
    }
    WantedMonotone(cands, 0, |cands|);
    assert cands[..|cands|] == cands;
  }

  /** Active reservations an issue of the lot for an order may use, whatever their rank. */
  function HeldFor(rs: seq<Reservation>, lot: Lot, productionOrder: Option<Id>): real {
    if rs == [] then 0.0
    else
      var last := rs[|rs| - 1];
      HeldFor(rs[..|rs| - 1], lot, productionOrder)
      + (if Matches(last, lot, productionOrder) then last.quantity else 0.0)
  }

  lemma {:induction false} WantedInsert(cands: seq<Candidate>, c: Candidate)
    ensures Wanted(Insert(cands, c, Sooner)) == Wanted(cands) + c.reservation.quantity
  {
    if cands == [] {
    } else if Sooner(cands[|cands| - 1], c) {
      assert (cands + [c])[..|cands|] == cands;
    } else {
      var rest := Insert(cands[..|cands| - 1], c, Sooner);
      WantedInsert(cands[..|cands| - 1], c);
      assert (rest + [cands[|cands| - 1]])[..|rest|] == rest;
    }
  }

  lemma {:induction false} WantedOrdered(cands: seq<Candidate>)
    ensures Wanted(OrderBy(cands, Sooner)) == Wanted(cands)
  {
    if cands == [] {
    } else {
      var n := |cands| - 1;
      WantedOrdered(cands[..n]);
      WantedInsert(OrderBy(cands[..n], Sooner), cands[n]);
    }
  }

  lemma {:induction false} CandidatesHold(rs: seq<Reservation>, lot: Lot, productionOrder: Option<Id>)
    ensures Wanted(Candidates(rs, lot, productionOrder)) == HeldFor(rs, lot, productionOrder)
  {
    if rs == [] {
    } else {
      var n := |rs| - 1;
      var before := Candidates(rs[..n], lot, productionOrder);
      CandidatesHold(rs[..n], lot, productionOrder);
      assert (before + [Candidate(n, rs[n])])[..|before|] == before && before + [] == before;
    }
  }

  /** The loop finds all that is held for the order, and without an order all that is held. */
  lemma WantedIsHeldFor(rs: seq<Reservation>, lot: Lot, productionOrder: Option<Id>)
    requires OnBatches(rs)
    ensures Wanted(Ranked(rs, lot, productionOrder)) == HeldFor(rs, lot, productionOrder)
    ensures productionOrder.None? ==> HeldFor(rs, lot, productionOrder) == Held(rs, lot)
  {
    CandidatesHold(rs, lot, productionOrder);
    WantedOrdered(Candidates(rs, lot, productionOrder));
    if productionOrder.None? {
      HeldForAnyOrder(rs, lot);
    }
  }

  lemma {:induction false} HeldForAnyOrder(rs: seq<Reservation>, lot: Lot)
    requires OnBatches(rs)
    ensures HeldFor(rs, lot, None) == Held(rs, lot)
  {
    if rs == [] {
    } else {
      assert rs[|rs| - 1].batch.Some?;
      HeldForAnyOrder(rs[..|rs| - 1], lot);
    }
  }

  // ----- backing of reserved stock -----

  /** Active reservations of a lot beyond its reserved stock. */
  function Slack(db: Db, lot: Lot): real {
    Held(db.reservations, lot) - OnHand(db.stock.rows, OfLotIn(lot, Reserved))
  }

  /** Reserved stock of every lot is covered by active reservations. */
  ghost predicate Backed(db: Db) {
    forall lot: Lot :: Slack(db, lot) >= 0.0
  }

  /** What a move between statuses does to the reserved stock of a lot. */
  lemma TransfersReserved(before: seq<Row>, after: seq<Row>, from: Key, to: Key, quantity: real, lot: Lot)
    requires Transfers(before, after, from, to, quantity)
    ensures OnHand(after, OfLotIn(lot, Reserved)) == OnHand(before, OfLotIn(lot, Reserved))
            - (if from.status == Reserved && lot == from.lot then quantity else 0.0)
            + (if to.status == Reserved && lot == to.lot then quantity else 0.0)
  {
  }

  lemma CreatedEffect(db: Db, p: ReserveInput, fefoEnabled: bool, now: int) returns (from: Key)
    requires Agrees(db.stock) && OnBatches(db.reservations)
    requires Created(db, p, fefoEnabled, now).Ok?
    ensures var t := Created(db, p, fefoEnabled, now).value;
            && SourceRow(db, p, fefoEnabled) == Ok(from)
            && Agrees(t.stock) && t.stock.batches == db.stock.batches && OnBatches(t.reservations)
            && from.status == Available && from.lot.company == p.company && from.lot.material == p.material
            && t.reservations == db.reservations + [NewReservation(p, from.lot.batch, now)]
            && Transfers(db.stock.rows, t.stock.rows, from, from.(status := Reserved), p.quantity)
  {
    from := SourceRow(db, p, fefoEnabled).value;
    SourceIsAvailable(db, p, fefoEnabled);
    MovedAgrees(db.stock, from, from.(status := Reserved), p.quantity, ReserveOut, ReserveIn);
  }

  /** Reserving raises reserved stock and active reservations alike. */
  lemma CreatedSlack(db: Db, p: ReserveInput, fefoEnabled: bool, now: int, lot: Lot)
    requires Agrees(db.stock) && OnBatches(db.reservations)
    requires Created(db, p, fefoEnabled, now).Ok?
    ensures Slack(Created(db, p, fefoEnabled, now).value, lot) == Slack(db, lot)
  {
    var from := CreatedEffect(db, p, fefoEnabled, now);
    HeldAppend(db.reservations, NewReservation(p, from.lot.batch, now), lot);
    TransfersReserved(db.stock.rows, Created(db, p, fefoEnabled, now).value.stock.rows,
                      from, from.(status := Reserved), p.quantity, lot);
  }

  lemma SourceIsAvailable(db: Db, p: ReserveInput, fefoEnabled: bool)
    requires SourceRow(db, p, fefoEnabled).Ok?
    ensures var from := SourceRow(db, p, fefoEnabled).value;
            && from.status == Available && from.lot.company == p.company && from.lot.material == p.material
            && (p.batch.Some? ==> from.lot.batch == p.batch.value)
            && (p.warehouse.Some? ==> from.warehouse == p.warehouse.value)
  {
    if p.batch.None? {
      var fefo := FifoEngine.UsesFefo(db.masters, p.company, p.material, fefoEnabled);
      FirstPickHit(db.stock, fefo, FifoEngine.StockOf(p.company, p.material, p.warehouse, Available), p.quantity);
    } else {
      assert OnBatch(p).Hits(SourceRow(db, p, fefoEnabled).value);
    }
  }

  lemma FirstPickHit(s: Stock, fefo: bool, w: Where, quantity: real)
    requires FifoEngine.Suggested(FifoEngine.Shelf(s, fefo, w), quantity).picks != []
    ensures w.Hits(FifoEngine.Suggested(FifoEngine.Shelf(s, fefo, w), quantity).picks[0].row.key)
  {
    var shelf := FifoEngine.Shelf(s, fefo, w);
    FifoEngine.ShelfOrders(s, fefo, w);
    assert shelf[0] in shelf;
  }

  lemma ReleasedEffect(db: Db, company: Id, id: nat) returns (from: Key)
    requires Agrees(db.stock) && OnBatches(db.reservations)
    requires ReleasedIn(db, company, id).Ok?
    ensures var t := ReleasedIn(db, company, id).value;
            && id < |db.reservations|
            && Agrees(t.stock) && t.stock.batches == db.stock.batches && OnBatches(t.reservations)
            && from.status == Reserved
            && HeldBy(db.reservations[id], from.lot) == db.reservations[id].quantity
            && t.reservations == db.reservations[id := db.reservations[id].(status := Released)]
            && Moved(db.stock, from, from.(status := Available), db.reservations[id].quantity, UnreserveOut,
                UnreserveIn) == Ok(t.stock)
            && Transfers(db.stock.rows, t.stock.rows, from, from.(status := Available), db.reservations[id].quantity)
  {
    var res := db.reservations[id];
    var i := Find(db.stock.rows, OfLotIn(Lot(company, res.material, res.batch.value), Reserved), Some(res.quantity));
    from := db.stock.rows[i].key;
    MovedAgrees(db.stock, from, from.(status := Available), res.quantity, UnreserveOut, UnreserveIn);
  }

  /** Releasing lowers reserved stock and active reservations alike. */
  lemma ReleasedSlack(db: Db, company: Id, id: nat, lot: Lot)
    requires Agrees(db.stock) && OnBatches(db.reservations)
    requires ReleasedIn(db, company, id).Ok?
    ensures Slack(ReleasedIn(db, company, id).value, lot) == Slack(db, lot)
  {
    var from := ReleasedEffect(db, company, id);
    HeldUpdate(db.reservations, id, db.reservations[id].(status := Released), lot);
    TransfersReserved(db.stock.rows, ReleasedIn(db, company, id).value.stock.rows,
                      from, from.(status := Available), db.reservations[id].quantity, lot);
  }

  lemma ConsumedStock(db: Db, p: ConsumeInput) returns (from: Key)
    requires Agrees(db.stock) && OnBatches(db.reservations)
    requires ConsumedIn(db, p).Ok?
    ensures var t := ConsumedIn(db, p).value;
            && p.quantity > 0.0
            && Agrees(t.stock) && t.stock.batches == db.stock.batches && OnBatches(t.reservations)
            && from.status == Reserved && from.lot == p.lot && from.warehouse == p.warehouse
            && Shifts(db.stock.rows, t.stock.rows, from, -p.quantity)
  {
    from := db.stock.rows[Find(db.stock.rows, ReservedStock(p), Some(p.quantity))].key;
    DeductedAgrees(db.stock, from, p.quantity, Issued);
    RankedAreRows(db.reservations, p.lot, p.productionOrder);
    DrainedOnBatches(db.reservations, Ranked(db.reservations, p.lot, p.productionOrder), p.quantity);
  }

  /** A consume deducts the whole quantity but lowers reservations only as far as
      they match: slack grows by exactly what they fail to cover. */
  lemma ConsumedSlack(db: Db, p: ConsumeInput, lot: Lot)
    requires Agrees(db.stock) && OnBatches(db.reservations)
    requires ConsumedIn(db, p).Ok?
    ensures var wanted := Wanted(Ranked(db.reservations, p.lot, p.productionOrder));
            Slack(ConsumedIn(db, p).value, lot)
            == Slack(db, lot) + (if lot == p.lot then Max(0.0, p.quantity - wanted) else 0.0)
  {
    ConsumedReserved(db, p, lot);
    ConsumedHeld(db, p, lot);
  }

  lemma ConsumedReserved(db: Db, p: ConsumeInput, lot: Lot)
    requires Agrees(db.stock) && OnBatches(db.reservations)
    requires ConsumedIn(db, p).Ok?
    ensures p.quantity > 0.0
    ensures OnHand(ConsumedIn(db, p).value.stock.rows, OfLotIn(lot, Reserved))
         == OnHand(db.stock.rows, OfLotIn(lot, Reserved)) - (if lot == p.lot then p.quantity else 0.0)
  {
    var from := ConsumedStock(db, p);
  }

  lemma ConsumedHeld(db: Db, p: ConsumeInput, lot: Lot)
    requires OnBatches(db.reservations) && p.quantity > 0.0 && ConsumedIn(db, p).Ok?
    ensures var wanted := Wanted(Ranked(db.reservations, p.lot, p.productionOrder));
            Held(ConsumedIn(db, p).value.reservations, lot)
            == Held(db.reservations, lot) - (if lot == p.lot then Min(p.quantity, wanted) else 0.0)
  {
    var ranked := Ranked(db.reservations, p.lot, p.productionOrder);
    RankedAreRows(db.reservations, p.lot, p.productionOrder);
    DrainedLowersHeld(db.reservations, ranked, p.lot, p.productionOrder, p.quantity, lot);
  }

  // ----- when consuming succeeds, and who is served first -----

  /** One row of the lot in the status, and the warehouse and location if named, holds the
      quantity. */
  predicate InOneRow(
      s: Stock, lot: Lot, status: Status, warehouse: Option<Id>, location: Option<Id>, quantity: real)
  {
    exists i | 0 <= i < |s.rows| :: && s.rows[i].key.lot == lot && s.rows[i].key.status == status
      && (warehouse.Some? ==> s.rows[i].key.warehouse == warehouse.value)
      && (location.Some? ==> s.rows[i].key.location == location)
      && s.rows[i].quantity >= quantity
  }

  lemma RowAt(s: Stock, i: nat)
    requires Agrees(s) && i < |s.rows|
    ensures At(s, s.rows[i].key) == s.rows[i].quantity
  {
    RowHoldsKey(s.rows, s.rows[i].key);
  }

  lemma ConsumedExactlyWhen(db: Db, p: ConsumeInput)
    requires Agrees(db.stock)
    ensures ConsumedIn(db, p).Ok?
            <==> p.quantity > 0.0 && InOneRow(db.stock, p.lot, Reserved, Some(p.warehouse), p.location, p.quantity)
  {
    var i := Find(db.stock.rows, ReservedStock(p), Some(p.quantity));
    if i < |db.stock.rows| {
      DeductedExactlyWhen(db.stock, db.stock.rows[i].key, p.quantity, Issued);
      RowAt(db.stock, i);
    }
  }

  /** An active reservation of the lot, for the order if one is named. */
  predicate Claims(r: Reservation, lot: Lot, productionOrder: Option<Id>) {
    && r.status == Active && r.company == lot.company && r.material == lot.material
    && r.batch == Some(lot.batch) && (productionOrder.Some? ==> r.productionOrder == productionOrder)
  }

  /** Of two claims the one of smaller priority, or of the same and made earlier, is used up
      before the other is touched. */
  lemma ConsumedByPriority(db: Db, p: ConsumeInput, a: nat, b: nat)
    requires OnBatches(db.reservations) && ConsumedIn(db, p).Ok? && a < |db.reservations| && b < |db.reservations|
    requires Claims(db.reservations[a], p.lot, p.productionOrder)
    requires Claims(db.reservations[b], p.lot, p.productionOrder)
    requires var x, y := db.reservations[a], db.reservations[b];
             x.priority < y.priority || (x.priority == y.priority && x.createdAt < y.createdAt)
    ensures var t := ConsumedIn(db, p).value.reservations;
            && |t| == |db.reservations|
            && (t[b] != db.reservations[b] ==> t[a] == db.reservations[a].(status := Consumed))
  {
    var rs := db.reservations;
    var ranked := Ranked(rs, p.lot, p.productionOrder);
    RankedAreRows(rs, p.lot, p.productionOrder);
    AllWanted(rs, ranked, p.lot, p.productionOrder);
    assert Candidate(a, rs[a]) in ranked && Candidate(b, rs[b]) in ranked;
    var k: nat :| k < |ranked| && ranked[k] == Candidate(a, rs[a]);
    var l: nat :| l < |ranked| && ranked[l] == Candidate(b, rs[b]);
    SoonerFirst(ranked, k, l);
    if Drained(rs, ranked, p.quantity)[b] != rs[b] {
      FateInTurn(rs, ranked, p.quantity, k, l);
    }
  }

  lemma SoonerFirst(ranked: seq<Candidate>, k: nat, l: nat)
    requires Sorted(ranked, Sooner) && k < |ranked| && l < |ranked|
    requires var x, y := ranked[k].reservation, ranked[l].reservation;
             x.priority < y.priority || (x.priority == y.priority && x.createdAt < y.createdAt)
    ensures k < l
  {
    assert l < k ==> Sooner(ranked[l], ranked[k]);
  }

  lemma FateInTurn(rs: seq<Reservation>, ranked: seq<Candidate>, quantity: real, k: nat, l: nat)
    requires RowsOf(ranked, rs) && PositiveEach(ranked) && k < l < |ranked|
    requires Drained(rs, ranked, quantity)[ranked[l].id] != ranked[l].reservation
    ensures Drained(rs, ranked, quantity)[ranked[k].id] == ranked[k].reservation.(status := Consumed)
  {
    DrainedInOrder(rs, ranked, quantity, k);
    DrainedInOrder(rs, ranked, quantity, l);
    assert ranked[..k + 1][..k] == ranked[..k];
    WantedMonotone(ranked, k + 1, l);
  }

  /** Reservations that claim nothing of what is consumed stay as they are, and the others
      are consumed whole, lowered in quantity, or left. */
  lemma ConsumedTouchesClaims(db: Db, p: ConsumeInput, i: nat)
    requires OnBatches(db.reservations) && ConsumedIn(db, p).Ok? && i < |db.reservations|
    ensures var r, t := db.reservations[i], ConsumedIn(db, p).value.reservations;
            && |t| == |db.reservations|
            && (!Claims(r, p.lot, p.productionOrder) ==> t[i] == r)
            && (t[i] == r || t[i] == r.(status := Consumed)
                || (t[i] == r.(quantity := t[i].quantity) && 0.0 < t[i].quantity < r.quantity))
  {
    var rs := db.reservations;
    var ranked := Ranked(rs, p.lot, p.productionOrder);
    RankedAreRows(rs, p.lot, p.productionOrder);
    AllWanted(rs, ranked, p.lot, p.productionOrder);
    if k: nat :| k < |ranked| && ranked[k].id == i {
      assert rs[i] == ranked[k].reservation;
      DrainedInOrder(rs, ranked, p.quantity, k);
    } else {
      DrainedElsewhere(rs, ranked, p.quantity, i);
    }
  }
}
