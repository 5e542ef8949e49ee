/** When no pick can fail, in any order of answers. */
module AnyOrder {
  import opened Base
  import opened Tables
  import opened Sequences
  import opened Sorting
  import opened StockEngine
  import opened ReservationEngine
  import opened Invariants
  import opened Production
  import opened ProductionLaws
  import opened AutoReserve
  import FifoEngine

  // ----- the conditions -----

  predicate OnShelfOf(r: Row, company: Id, material: Id) {
    OnShelf(r, company) && r.key.lot.material == material
  }

  /** Available rows of one batch in one warehouse all hold the same. */
  ghost predicate Even(rows: seq<Row>, company: Id, material: Id) {
    forall a, b | a in rows && b in rows && OnShelfOf(a, company, material) && OnShelfOf(b, company, material)
                  && SamePlace(a, b) ::
      a.quantity == b.quantity
  }

  /** Each batch has at most one available row a warehouse. */
  ghost predicate Single(rows: seq<Row>, company: Id, material: Id) {
    forall a, b | a in rows && b in rows && OnShelfOf(a, company, material) && OnShelfOf(b, company, material)
                  && SamePlace(a, b) ::
      a == b
  }

  // ----- counting rows and picks of a place -----

  /** A row a pick at the place could be drawn from. */
  predicate Fits(r: Row, place: Row, least: real) {
    SamePlace(r, place) && r.key.status == Available && r.quantity >= least
  }

  function Count(rows: seq<Row>, place: Row, least: real): nat {
    if rows == [] then 0 else (if Fits(rows[0], place, least) then 1 else 0) + Count(rows[1..], place, least)
  }

  function PicksAt(picks: seq<FifoEngine.Pick>, place: Row, least: real): nat {
    if picks == [] then 0
    else
      (if SamePlace(picks[0].row, place) && picks[0].quantity >= least then 1 else 0)
      + PicksAt(picks[1..], place, least)
  }

  lemma {:induction false} CountSplit(a: seq<Row>, b: seq<Row>, place: Row, least: real)
    ensures Count(a + b, place, least) == Count(a, place, least) + Count(b, place, least)
  {
    if a == [] {
      assert a + b == b;
    } else {
      CountSplit(a[1..], b, place, least);
      assert (a + b)[1..] == a[1..] + b;
    }
  }

  lemma CountRemove(rows: seq<Row>, j: nat, place: Row, least: real)
    requires j < |rows|
    ensures Count(rows, place, least)
              == Count(rows[..j] + rows[j + 1..], place, least) + (if Fits(rows[j], place, least) then 1 else 0)
    ensures multiset(rows[..j] + rows[j + 1..]) == multiset(rows) - multiset{rows[j]}
  {
    assert rows == rows[..j] + ([rows[j]] + rows[j + 1..]);
    assert ([rows[j]] + rows[j + 1..])[1..] == rows[j + 1..];
    CountSplit(rows[..j], [rows[j]] + rows[j + 1..], place, least);
    CountSplit(rows[..j], rows[j + 1..], place, least);
  }

  lemma {:induction false} CountPermutes(a: seq<Row>, b: seq<Row>, place: Row, least: real)
    requires multiset(a) == multiset(b)
    ensures Count(a, place, least) == Count(b, place, least)
  {
    if a == [] {
      assert |multiset(b)| == 0;
    } else {
      assert a[0] in multiset(b);
      var j :| 0 <= j < |b| && b[j] == a[0];
      CountRemove(a, 0, place, least);
      CountRemove(b, j, place, least);
      CountPermutes(a[..0] + a[1..], b[..j] + b[j + 1..], place, least);
    }
  }

  /** Taking the rows of a query that hold something misses none that fits. */
  lemma {:induction false} CountHolding(rows: seq<Row>, w: Where, place: Row, least: real)
    requires least > 0.0 && forall r: Row :: Fits(r, place, least) ==> w.Hits(r.key)
    ensures Count(FifoEngine.Holding(rows, w), place, least) == Count(rows, place, least)
  {
    if rows == [] {
    } else {
      var n := |rows| - 1;
      CountHolding(rows[..n], w, place, least);
      CountSplit(rows[..n], [rows[n]], place, least);
      CountSplit(FifoEngine.Holding(rows[..n], w), [rows[n]], place, least);
      assert rows == rows[..n] + [rows[n]];
      assert FifoEngine.Holding(rows[..n], w) + [] == FifoEngine.Holding(rows[..n], w);
    }
  }

  lemma {:induction false} CountSome(rows: seq<Row>, place: Row, least: real) returns (i: nat)
    requires Count(rows, place, least) > 0
    ensures i < |rows| && Fits(rows[i], place, least)
  {
    if Fits(rows[0], place, least) {
      i := 0;
    } else {
      i := CountSome(rows[1..], place, least);
      i := i + 1;
    }
  }

  /** Rows that fit alike are counted alike; one row can make a difference of one. */
  lemma {:induction false} CountDiffer(a: seq<Row>, b: seq<Row>, i: nat, place: Row, least: real)
    requires i < |a| <= |b|
    requires forall k | 0 <= k < |a| && k != i :: Fits(a[k], place, least) <==> Fits(b[k], place, least)
    requires forall k | |a| <= k < |b| :: !Fits(b[k], place, least)
    ensures Count(b, place, least) == Count(a, place, least)
              - (if Fits(a[i], place, least) then 1 else 0) + (if Fits(b[i], place, least) then 1 else 0)
  {
    if i == 0 {
      CountSame(a[1..], b[1..], place, least);
    } else {
      CountDiffer(a[1..], b[1..], i - 1, place, least);
    }
  }

  lemma {:induction false} CountSame(a: seq<Row>, b: seq<Row>, place: Row, least: real)
    requires |a| <= |b|
    requires forall k | 0 <= k < |a| :: Fits(a[k], place, least) <==> Fits(b[k], place, least)
    requires forall k | |a| <= k < |b| :: !Fits(b[k], place, least)
    ensures Count(b, place, least) == Count(a, place, least)
  {
    if b == [] {
    } else if a == [] {
      CountSame(a, b[1..], place, least);
    } else {
      CountSame(a[1..], b[1..], place, least);
    }
  }

  // ----- drawing one pick -----

  predicate PickOf(pick: FifoEngine.Pick, company: Id, material: Id) {
    pick.row.key.lot.company == company && pick.row.key.lot.material == material && pick.quantity > 0.0
  }

  /** What drawing on row `i` does to the table. */
  ghost predicate Draws(before: seq<Row>, after: seq<Row>, i: nat, quantity: real) {
    && i < |before| && before[i].key.status == Available && DistinctKeys(before) && quantity > 0.0
    && Rewrites(before, after, before[i].key, before[i].key.(status := Reserved), quantity)
  }

  /** A pick is reserved exactly when some row of its place holds it, and drawn from the
      first such row. */
  lemma PickDraws(db: Db, order: ForOrder, material: Id, pick: FifoEngine.Pick) returns (i: nat)
    requires Core(db) && KnownMaterial(db.masters, order.company, material) && PickOf(pick, order.company, material)
    ensures PickReserved(db, order, material, pick).Ok?
            <==> exists k | 0 <= k < |db.stock.rows| :: Fits(db.stock.rows[k], pick.row, pick.quantity)
    ensures PickReserved(db, order, material, pick).Ok? ==>
              var t := PickReserved(db, order, material, pick).value;
              && Core(t) && t.masters == db.masters && Draws(db.stock.rows, t.stock.rows, i, pick.quantity)
              && Fits(db.stock.rows[i], pick.row, pick.quantity)
              && (forall k | 0 <= k < i :: !Fits(db.stock.rows[k], pick.row, pick.quantity))
  {
    var p := InputFor(order, material, pick);
    i := Find(db.stock.rows, OnBatch(p), Some(p.quantity));
    forall k | 0 <= k < |db.stock.rows|
      ensures OnBatch(p).Hits(db.stock.rows[k].key)
              <==> SamePlace(db.stock.rows[k], pick.row) && db.stock.rows[k].key.status == Available
    {
    }
    if i < |db.stock.rows| {
      var from := db.stock.rows[i].key;
      MoveSucceeds(db.stock, i, from.(status := Reserved), pick.quantity, ReserveOut, ReserveIn);
      CreatedKeeps(db, p, order.fefoEnabled, order.now);
    }
  }

  lemma DrawsFit(before: seq<Row>, after: seq<Row>, i: nat, quantity: real, k: nat, place: Row, least: real)
    requires Draws(before, after, i, quantity) && k < |after| && k != i
    ensures Fits(after[k], place, least) <==> k < |before| && Fits(before[k], place, least)
  {
    if k < |before| {
      assert before[k].key != before[i].key by {
        assert before[if k < i then k else i].key != before[if k < i then i else k].key;
      }
    }
  }

  lemma DrawsCount(before: seq<Row>, after: seq<Row>, i: nat, quantity: real, place: Row, least: real)
    requires Draws(before, after, i, quantity)
    ensures Count(after, place, least) == Count(before, place, least)
              - (if Fits(before[i], place, least) && before[i].quantity - quantity < least then 1 else 0)
  {
    forall k | 0 <= k < |after| && k != i
      ensures Fits(after[k], place, least) <==> k < |before| && Fits(before[k], place, least)
    {
      DrawsFit(before, after, i, quantity, k, place, least);
    }
    CountDiffer(before, after, i, place, least);
  }

  // ----- enough rows for the picks -----

  /** Every place has as many rows as picks left, each holding what any of them takes. */
  ghost predicate Enough(rows: seq<Row>, picks: seq<FifoEngine.Pick>) {
    forall k | 0 <= k < |picks| ::
      && picks[k].quantity <= picks[k].row.quantity
      && PicksAt(picks, picks[k].row, 0.0) <= Count(rows, picks[k].row, picks[k].row.quantity)
  }

  ghost predicate PicksOf(picks: seq<FifoEngine.Pick>, company: Id, material: Id) {
    forall k | 0 <= k < |picks| :: PickOf(picks[k], company, material)
  }

  lemma RestEnough(
      before: seq<Row>, after: seq<Row>, picks: seq<FifoEngine.Pick>, i: nat, company: Id, material: Id)
    requires picks != [] && Enough(before, picks) && PicksOf(picks, company, material)
    requires Draws(before, after, i, picks[0].quantity) && SamePlace(before[i], picks[0].row)
    ensures Enough(after, picks[1..])
  {
    var rest := picks[1..];
    forall k | 0 <= k < |rest|
      ensures rest[k].quantity <= rest[k].row.quantity
      ensures PicksAt(rest, rest[k].row, 0.0) <= Count(after, rest[k].row, rest[k].row.quantity)
    {
      assert rest[k] == picks[k + 1];
      DrawsCount(before, after, i, picks[0].quantity, rest[k].row, rest[k].row.quantity);
    }
  }

  lemma ShuffledEnough(db: Db, shuffles: Shuffles, picks: seq<FifoEngine.Pick>)
    requires Core(db) && Enough(db.stock.rows, picks)
    ensures Enough(Shuffled(db, shuffles).stock.rows, picks)
  {
    var d := Shuffled(db, shuffles);
    ShuffledSame(db, shuffles);
    forall k | 0 <= k < |picks|
      ensures PicksAt(picks, picks[k].row, 0.0) <= Count(d.stock.rows, picks[k].row, picks[k].row.quantity)
    {
      CountPermutes(db.stock.rows, d.stock.rows, picks[k].row, picks[k].row.quantity);
    }
  }

  lemma FirstReserved(db: Db, order: ForOrder, material: Id, picks: seq<FifoEngine.Pick>) returns (t: Db)
    requires Core(db) && KnownMaterial(db.masters, order.company, material) && picks != []
    requires PicksOf(picks, order.company, material) && Enough(db.stock.rows, picks)
    ensures PickReserved(db, order, material, picks[0]) == Ok(t) && Core(t) && t.masters == db.masters
    ensures Enough(t.stock.rows, picks[1..]) && PicksOf(picks[1..], order.company, material)
  {
    var pick := picks[0];
    var k := CountSome(db.stock.rows, pick.row, pick.row.quantity);
    assert Fits(db.stock.rows[k], pick.row, pick.quantity);
    var i := PickDraws(db, order, material, pick);
    t := PickReserved(db, order, material, pick).value;
    RestEnough(db.stock.rows, t.stock.rows, picks, i, order.company, material);
  }

  lemma {:induction false} EnoughNeverFails(
      db: Db, order: ForOrder, material: Id, picks: seq<FifoEngine.Pick>, shuffles: Shuffles)
    requires Core(db) && KnownMaterial(db.masters, order.company, material)
    requires PicksOf(picks, order.company, material) && Enough(db.stock.rows, picks)
    ensures PicksReserved(db, order, material, picks, shuffles).error.None?
    decreases |picks|
  {
    if picks == [] {
    } else {
      ShuffledSame(db, shuffles);
      ShuffledEnough(db, shuffles, picks);
      var t := FirstReserved(Shuffled(db, shuffles), order, material, picks);
      EnoughNeverFails(t, order, material, picks[1..], Later(shuffles));
    }
  }

  // ----- even places suffice -----

  lemma ShelfRows(db: Db, order: ForOrder, material: Id)
    ensures var shelf := ShelfOf(db, order, material);
            && FifoEngine.Positive(shelf)
            && (forall r :: r in shelf <==> r in db.stock.rows && OnShelfOf(r, order.company, material))
  {
    FifoEngine.ShelfOrders(db.stock, FifoEngine.UsesFefo(db.masters, order.company, material, order.fefoEnabled),
                           FifoEngine.StockOf(order.company, material, None, Available));
  }

  lemma ShelfCounts(db: Db, order: ForOrder, material: Id, place: Row, least: real)
    requires place.key.lot.company == order.company && place.key.lot.material == material && least > 0.0
    ensures Count(ShelfOf(db, order, material), place, least) == Count(db.stock.rows, place, least)
  {
    var fefo := FifoEngine.UsesFefo(db.masters, order.company, material, order.fefoEnabled);
    var w := FifoEngine.StockOf(order.company, material, None, Available);
    FifoEngine.ShelfOrders(db.stock, fefo, w);
    CountPermutes(ShelfOf(db, order, material), FifoEngine.Holding(db.stock.rows, w), place, least);
    CountHolding(db.stock.rows, w, place, least);
  }

  lemma SuggestedPicks(db: Db, order: ForOrder, material: Id, quantity: real)
    ensures PicksOf(FifoEngine.Picks(ShelfOf(db, order, material), quantity), order.company, material)
  {
    var shelf := ShelfOf(db, order, material);
    ShelfRows(db, order, material);
    if quantity > 0.0 {
      FifoEngine.PicksTakeMinimum(shelf, quantity);
      forall k | 0 <= k < |FifoEngine.Picks(shelf, quantity)|
        ensures PickOf(FifoEngine.Picks(shelf, quantity)[k], order.company, material)
      {
        assert shelf[k] in shelf;
      }
    }
  }

  lemma {:induction false} PicksWithin(shelf: seq<Row>, quantity: real, place: Row, least: real)
    requires forall k | 0 <= k < |shelf| && SamePlace(shelf[k], place) :: Fits(shelf[k], place, least)
    ensures PicksAt(FifoEngine.Picks(shelf, quantity), place, 0.0) <= Count(shelf, place, least)
    decreases |shelf|
  {
    if shelf == [] || quantity <= 0.0 {
    } else {
      PicksWithin(shelf[1..], quantity - Min(shelf[0].quantity, quantity), place, least);
      assert FifoEngine.Picks(shelf, quantity)[1..]
          == FifoEngine.Picks(shelf[1..], quantity - Min(shelf[0].quantity, quantity));
    }
  }

  lemma EvenIsEnough(db: Db, order: ForOrder, material: Id, quantity: real)
    requires Even(db.stock.rows, order.company, material) && quantity > 0.0
    ensures Enough(db.stock.rows, FifoEngine.Picks(ShelfOf(db, order, material), quantity))
  {
    var shelf := ShelfOf(db, order, material);
    var picks := FifoEngine.Picks(shelf, quantity);
    ShelfRows(db, order, material);
    FifoEngine.PicksTakeMinimum(shelf, quantity);
    forall k | 0 <= k < |picks|
      ensures PicksAt(picks, picks[k].row, 0.0) <= Count(db.stock.rows, picks[k].row, picks[k].row.quantity)
    {
      var place := picks[k].row;
      assert place == shelf[k] && shelf[k] in shelf;
      forall l | 0 <= l < |shelf| && SamePlace(shelf[l], place)
        ensures Fits(shelf[l], place, place.quantity)
      {
        assert shelf[l] in shelf;
      }
      PicksWithin(shelf, quantity, place, place.quantity);
      ShelfCounts(db, order, material, place, place.quantity);
    }
  }

  lemma ShuffledElements(db: Db, shuffles: Shuffles)
    requires Core(db)
    ensures forall r :: r in Shuffled(db, shuffles).stock.rows <==> r in db.stock.rows
  {
    ShuffledSame(db, shuffles);
    SameElements(db.stock.rows, Shuffled(db, shuffles).stock.rows);
  }

  /** Where places are even no line fails, in whatever order the database answers. */
  lemma EvenNeverFails(db: Db, order: ForOrder, want: Want, shuffles: Shuffles)
    requires Core(db) && KnownMaterial(db.masters, order.company, want.material)
    requires Even(db.stock.rows, order.company, want.material)
    ensures WantReserved(db, order, want, shuffles).error.None?
  {
    var d := Shuffled(db, shuffles);
    var picks := SuggestionFor(d, order, want).picks;
    ShuffledSame(db, shuffles);
    ShuffledElements(db, shuffles);
    if want.quantity > 0.0 {
      EvenIsEnough(d, order, want.material, want.quantity);
      SuggestedPicks(d, order, want.material, want.quantity);
      EnoughNeverFails(d, order, want.material, picks, Later(shuffles));
    } else {
      assert picks == [];
    }
  }

  // ----- uneven places fail -----

  /** No available row of the place holds more. */
  ghost predicate AtMost(rows: seq<Row>, place: Row, most: real) {
    forall k | 0 <= k < |rows| && SamePlace(rows[k], place) && rows[k].key.status == Available ::
      rows[k].quantity <= most
  }

  lemma DrawsAtMost(before: seq<Row>, after: seq<Row>, i: nat, quantity: real, place: Row, most: real)
    requires Draws(before, after, i, quantity) && AtMost(before, place, most)
    ensures AtMost(after, place, most)
  {
    forall k | 0 <= k < |after| && SamePlace(after[k], place) && after[k].key.status == Available
      ensures after[k].quantity <= most
    {
      if k != i {
        DrawsFit(before, after, i, quantity, k, place, after[k].quantity);
      }
    }
  }

  lemma AtMostInAnyOrder(rows: seq<Row>, ordered: seq<Row>, place: Row, most: real)
    requires AtMost(rows, place, most) && multiset(ordered) == multiset(rows)
    ensures AtMost(ordered, place, most)
  {
    SameElements(rows, ordered);
    forall k | 0 <= k < |ordered| && SamePlace(ordered[k], place) && ordered[k].key.status == Available
      ensures ordered[k].quantity <= most
    {
      assert ordered[k] in rows;
    }
  }

  lemma ShuffledShort(db: Db, shuffles: Shuffles, place: Row, most: real)
    requires Core(db) && AtMost(db.stock.rows, place, most)
    ensures var d := Shuffled(db, shuffles);
            AtMost(d.stock.rows, place, most) && Count(d.stock.rows, place, most) == Count(db.stock.rows, place, most)
  {
    var d := Shuffled(db, shuffles);
    ShuffledSame(db, shuffles);
    CountPermutes(db.stock.rows, d.stock.rows, place, most);
    AtMostInAnyOrder(db.stock.rows, d.stock.rows, place, most);
  }

  /** With fewer rows of the largest size than picks of it, some pick fails. */
  lemma {:induction false} ShortFails(
      db: Db, order: ForOrder, material: Id, picks: seq<FifoEngine.Pick>, shuffles: Shuffles, place: Row, most: real)
    requires Core(db) && KnownMaterial(db.masters, order.company, material)
    requires PicksOf(picks, order.company, material) && AtMost(db.stock.rows, place, most) && most > 0.0
    requires Count(db.stock.rows, place, most) < PicksAt(picks, place, most)
    ensures PicksReserved(db, order, material, picks, shuffles).error.Some?
    decreases |picks|
  {
    var d := Shuffled(db, shuffles);
    ShuffledSame(db, shuffles);
    ShuffledShort(db, shuffles, place, most);
    var i := PickDraws(d, order, material, picks[0]);
    if PickReserved(d, order, material, picks[0]).Ok? {
      var t := PickReserved(d, order, material, picks[0]).value;
      DrawsCount(d.stock.rows, t.stock.rows, i, picks[0].quantity, place, most);
      DrawsAtMost(d.stock.rows, t.stock.rows, i, picks[0].quantity, place, most);
      ShortFails(t, order, material, picks[1..], Later(shuffles), place, most);
    }
  }

  /** The first pick at the place takes less than the largest row there holds. */
  ghost predicate FirstSmall(picks: seq<FifoEngine.Pick>, place: Row, most: real) {
    exists k | 0 <= k < |picks| ::
      && SamePlace(picks[k].row, place) && picks[k].quantity < most
      && forall l | 0 <= l < k :: !SamePlace(picks[l].row, place)
  }

  /** If a largest row stands first in the table it is broken by the first pick at its
      place, and a pick of the largest size fails for want of it. */
  lemma {:induction false} LargestBroken(
      db: Db, order: ForOrder, material: Id, picks: seq<FifoEngine.Pick>, place: Row, most: real)
    requires Core(db) && KnownMaterial(db.masters, order.company, material) && most > 0.0
    requires PicksOf(picks, order.company, material) && AtMost(db.stock.rows, place, most)
    requires db.stock.rows != [] && Fits(db.stock.rows[0], place, most) && FirstSmall(picks, place, most)
    requires Count(db.stock.rows, place, most) <= PicksAt(picks, place, most)
    ensures PicksReserved(db, order, material, picks, []).error.Some?
    decreases |picks|
  {
    var i := PickDraws(db, order, material, picks[0]);
    if PickReserved(db, order, material, picks[0]).Ok? {
      var t := PickReserved(db, order, material, picks[0]).value;
      DrawsCount(db.stock.rows, t.stock.rows, i, picks[0].quantity, place, most);
      DrawsAtMost(db.stock.rows, t.stock.rows, i, picks[0].quantity, place, most);
      if SamePlace(picks[0].row, place) {
        assert i == 0;
        ShortFails(t, order, material, picks[1..], [], place, most);
      } else {
        DrawsFit(db.stock.rows, t.stock.rows, i, picks[0].quantity, 0, place, most);
        RestFirstSmall(picks, place, most);
        LargestBroken(t, order, material, picks[1..], place, most);
      }
    }
  }

  lemma RestFirstSmall(picks: seq<FifoEngine.Pick>, place: Row, most: real)
    requires FirstSmall(picks, place, most) && !SamePlace(picks[0].row, place)
    ensures FirstSmall(picks[1..], place, most)
  {
    var k :| 0 <= k < |picks| && SamePlace(picks[k].row, place) && picks[k].quantity < most
      && forall l | 0 <= l < k :: !SamePlace(picks[l].row, place);
    assert picks[1..][k - 1] == picks[k];
    assert forall l | 0 <= l < k - 1 :: picks[1..][l] == picks[l + 1];
  }

  /** Asking for all there is picks every row whole. */
  lemma {:induction false} AllPicked(shelf: seq<Row>)
    requires FifoEngine.Positive(shelf)
    ensures var picks := FifoEngine.Picks(shelf, FifoEngine.Total(shelf));
            && |picks| == |shelf|
            && (forall k | 0 <= k < |shelf| :: picks[k] == FifoEngine.Pick(shelf[k], shelf[k].quantity))
            && (forall place, least | least > 0.0 :: PicksAt(picks, place, least) >= Count(shelf, place, least))
            && FifoEngine.Left(shelf, FifoEngine.Total(shelf)) <= 0.0
  {
    if shelf == [] {
    } else {
      AllPicked(shelf[1..]);
      FifoEngine.TotalMonotone(shelf[1..], 0, |shelf| - 1);
      assert shelf[1..][..|shelf| - 1] == shelf[1..];
      var picks := FifoEngine.Picks(shelf, FifoEngine.Total(shelf));
      assert picks[1..] == FifoEngine.Picks(shelf[1..], FifoEngine.Total(shelf[1..]));
    }
  }

  predicate Lighter(a: Row, b: Row) {
    a.quantity <= b.quantity
  }

  lemma {:induction false} LargestAt(rows: seq<Row>, place: Row) returns (j: nat)
    requires exists k | 0 <= k < |rows| :: SamePlace(rows[k], place) && rows[k].key.status == Available
    ensures j < |rows| && SamePlace(rows[j], place) && rows[j].key.status == Available
    ensures AtMost(rows, place, rows[j].quantity)
  {
    var n := |rows| - 1;
    if exists k | 0 <= k < n :: SamePlace(rows[k], place) && rows[k].key.status == Available {
      j := LargestAt(rows[..n], place);
      if SamePlace(rows[n], place) && rows[n].key.status == Available && rows[n].quantity > rows[j].quantity {
        j := n;
      }
    } else {
      j := n;
    }
  }

  /** In a table ordered by quantity, rows of one place come smallest first on the shelf. */
  lemma SmallestFirst(db: Db, order: ForOrder, material: Id, small: Row, place: Row, most: real)
    requires Core(db) && Sorted(db.stock.rows, Lighter)
    requires small in db.stock.rows && OnShelfOf(small, order.company, material)
    requires SamePlace(small, place) && small.quantity < most
    ensures var shelf := ShelfOf(db, order, material);
            exists k | 0 <= k < |shelf| ::
              && SamePlace(shelf[k], place) && shelf[k].quantity < most
              && forall l | 0 <= l < k :: !SamePlace(shelf[l], place)
  {
    var shelf := ShelfOf(db, order, material);
    ShelfRows(db, order, material);
    var s :| 0 <= s < |shelf| && shelf[s] == small;
    var k := FirstAt(shelf, place, s);
    SuggestionIsShelf(db, order, material);
    NoneBeforeFirst(shelf, place, k, small);
    if shelf[k].quantity >= most {
      AscendsOnShelf(db, order, material, small, shelf[k]);
    }
  }

  lemma {:induction false} FirstAt(shelf: seq<Row>, place: Row, s: nat) returns (k: nat)
    requires s < |shelf| && SamePlace(shelf[s], place)
    ensures k <= s && SamePlace(shelf[k], place) && forall l | 0 <= l < k :: !SamePlace(shelf[l], place)
  {
    if l: nat :| l < s && SamePlace(shelf[l], place) {
      k := FirstAt(shelf, place, l);
    } else {
      k := s;
    }
  }

  lemma LighterFirst(rows: seq<Row>, m: nat, n: nat)
    requires Sorted(rows, Lighter) && m < |rows| && n < |rows|
    ensures m < n ==> rows[m].quantity <= rows[n].quantity
  {
    assert m < n ==> Lighter(rows[m], rows[n]);
  }

  /** Nothing of the place stands before the first row there. */
  lemma NoneBeforeFirst(shelf: seq<Row>, place: Row, k: nat, small: Row)
    requires DistinctKeys(shelf) && k < |shelf| && SamePlace(small, place)
    requires forall l | 0 <= l < k :: !SamePlace(shelf[l], place)
    ensures !Before(shelf, small, shelf[k])
  {
    forall i, j | 0 <= i < j < |shelf| && shelf[j] == shelf[k]
      ensures shelf[i] != small
    {
      assert j == k;
    }
  }

  lemma AscendsOnShelf(db: Db, order: ForOrder, material: Id, small: Row, large: Row)
    requires Sorted(db.stock.rows, Lighter) && small in db.stock.rows && large in db.stock.rows
    requires OnShelfOf(small, order.company, material) && OnShelfOf(large, order.company, material)
    requires SamePlace(small, large) && small.quantity < large.quantity
    ensures Before(ShelfOf(db, order, material), small, large)
  {
    var m: nat :| m < |db.stock.rows| && db.stock.rows[m] == small;
    var n: nat :| n < |db.stock.rows| && db.stock.rows[n] == large;
    LighterFirst(db.stock.rows, n, m);
    FifoEngine.ShelfKeepsOrder(
      db.stock, FifoEngine.UsesFefo(db.masters, order.company, material, order.fefoEnabled),
      FifoEngine.StockOf(order.company, material, None, Available), m, n);
  }

  /** The two orders that make an uneven place fail: smallest first when suggesting, a
      largest row first when reserving. */
  lemma FailingOrders(db: Db, place: Row) returns (ascending: seq<Row>, largestFirst: seq<Row>)
    requires Core(db) && place in db.stock.rows && place.key.status == Available
    ensures multiset(ascending) == multiset(db.stock.rows) == multiset(largestFirst)
    ensures Sorted(ascending, Lighter) && largestFirst != []
    ensures SamePlace(largestFirst[0], place) && largestFirst[0].key.status == Available
    ensures AtMost(largestFirst, place, largestFirst[0].quantity)
  {
    var rows := db.stock.rows;
    ascending := OrderBy(rows, Lighter);
    OrderByOrders(rows, Lighter);
    var p :| 0 <= p < |rows| && rows[p] == place;
    var j := LargestAt(rows, place);
    largestFirst := MovedFirst(rows, j);
    AtMostInAnyOrder(rows, largestFirst, place, rows[j].quantity);
  }

  lemma MovedFirst(rows: seq<Row>, j: nat) returns (moved: seq<Row>)
    requires j < |rows|
    ensures moved != [] && moved[0] == rows[j] && multiset(moved) == multiset(rows)
  {
    moved := [rows[j]] + (rows[..j] + rows[j + 1..]);
    assert rows == rows[..j] + ([rows[j]] + rows[j + 1..]);
  }

  /** The whole shelf picked in ascending order, and a largest row first in the table. */
  lemma AllPickedFails(
      d: Db, e: Db, order: ForOrder, material: Id, small: Row, most: real) returns (picks: seq<FifoEngine.Pick>)
    requires Core(d) && Core(e) && KnownMaterial(e.masters, order.company, material)
    requires Sorted(d.stock.rows, Lighter) && multiset(d.stock.rows) == multiset(e.stock.rows)
    requires small in d.stock.rows && OnShelfOf(small, order.company, material) && small.quantity < most
    requires AtMost(e.stock.rows, small, most) && e.stock.rows != [] && Fits(e.stock.rows[0], small, most)
    ensures var quantity := FifoEngine.Total(ShelfOf(d, order, material));
            && quantity > 0.0 && FifoEngine.Suggested(ShelfOf(d, order, material), quantity).fullyCovered
            && picks == FifoEngine.Suggested(ShelfOf(d, order, material), quantity).picks && picks != []
    ensures PicksReserved(e, order, material, picks, []).error.Some?
  {
    var shelf := ShelfOf(d, order, material);
    picks := FifoEngine.Picks(shelf, FifoEngine.Total(shelf));
    ShelfRows(d, order, material);
    AllPicked(shelf);
    SuggestedPicks(d, order, material, FifoEngine.Total(shelf));
    SmallestFirst(d, order, material, small, small, most);
    ShelfCounts(d, order, material, small, most);
    CountPermutes(d.stock.rows, e.stock.rows, small, most);
    LargestBroken(e, order, material, picks, small, most);
  }

  lemma UnevenFails(db: Db, order: ForOrder, material: Id) returns (quantity: real, shuffles: Shuffles)
    requires Core(db) && KnownMaterial(db.masters, order.company, material)
    requires !Even(db.stock.rows, order.company, material)
    ensures quantity > 0.0 && WantReserved(db, order, Want(material, quantity), shuffles).error.Some?
  {
    var a, b :| a in db.stock.rows && b in db.stock.rows && OnShelfOf(a, order.company, material)
      && OnShelfOf(b, order.company, material) && SamePlace(a, b) && a.quantity < b.quantity;
    var ascending, largestFirst := FailingOrders(db, a);
    shuffles := [ascending, largestFirst];
    var d := Shuffled(db, shuffles);
    var e := Shuffled(d, Later(shuffles));
    ShuffledSame(db, shuffles);
    ShuffledSame(d, Later(shuffles));
    SameElements(db.stock.rows, ascending);
    SameElements(db.stock.rows, largestFirst);
    assert b in largestFirst;
    quantity := FifoEngine.Total(ShelfOf(d, order, material));
    var picks := AllPickedFails(d, e, order, material, a, largestFirst[0].quantity);
    ShuffledOnce(d, order, material, picks, Later(shuffles));
  }

  lemma ShuffledOnce(db: Db, order: ForOrder, material: Id, picks: seq<FifoEngine.Pick>, shuffles: Shuffles)
    requires picks != [] && |shuffles| == 1
    ensures PicksReserved(db, order, material, picks, shuffles)
         == PicksReserved(Shuffled(db, shuffles), order, material, picks, [])
  {
    assert Later(shuffles) == [];
  }

  /** A line reserves without failing, whatever its quantity and in whatever order the
      database answers, exactly when available rows of one batch in one warehouse all hold
      the same. */
  lemma WantReservesExactlyWhen(db: Db, order: ForOrder, material: Id)
    requires Core(db) && KnownMaterial(db.masters, order.company, material)
    ensures (forall quantity, shuffles :: WantReserved(db, order, Want(material, quantity), shuffles).error.None?)
            <==> Even(db.stock.rows, order.company, material)
  {
    if Even(db.stock.rows, order.company, material) {
      forall quantity, shuffles
        ensures WantReserved(db, order, Want(material, quantity), shuffles).error.None?
      {
        EvenNeverFails(db, order, Want(material, quantity), shuffles);
      }
    } else {
      var quantity, shuffles := UnevenFails(db, order, material);
    }
  }
}
