/** Store thresholds as resolved from a company's settings, whatever they hold. */
module StorePolicy {
  import opened Sequences
  import opened Sorting

  /** A value in the settings, a JSON document. */
  datatype Setting = Absent | Number(value: real) | Flag(on: bool) | Array(items: seq<Setting>) | Anything

  datatype Settings =
    | NotAnObject
    | Settings(agingBands: Setting, nearExpiryDays: Setting, deadStockDays: Setting, slowStockDays: Setting,
        fefoEnabled: Setting)

  datatype Policy = Policy(agingBands: seq<int>, nearExpiryDays: nat, deadStockDays: nat, slowStockDays: nat,
      fefoEnabled: bool)

  const DEFAULT := Policy([30, 60, 90, 180, 365], 30, 180, 90, false)

  function Blob(raw: Settings): Settings {
    if raw.NotAnObject? then Settings(Absent, Absent, Absent, Absent, Absent) else raw
  }

  function Days(s: Setting, fallback: nat): nat {
    if s.Number? && s.value >= 0.0 then s.value.Floor else fallback
  }

  predicate IsBand(s: Setting) {
    s.Number? && s.value == s.value.Floor as real && s.value > 0.0
  }

  /** The positive integers of a list. */
  function Given(items: seq<Setting>): seq<int> {
    if items == [] then []
    else Given(items[..|items| - 1]) + (if IsBand(items[|items| - 1]) then [items[|items| - 1].value.Floor] else [])
  }

  /** Each number once. */
  function Distinct(xs: seq<int>): seq<int> {
    if xs == [] then []
    else Distinct(xs[..|xs| - 1]) + (if xs[|xs| - 1] in xs[..|xs| - 1] then [] else [xs[|xs| - 1]])
  }

  function UpTo(a: int, b: int): bool {
    a <= b
  }

  const MOST_BANDS: nat := 8

  function Bands(s: Setting): seq<int> {
    if !s.Array? then []
    else
      var sorted := OrderBy(Distinct(Given(s.items)), UpTo);
      if |sorted| <= MOST_BANDS then sorted else sorted[..MOST_BANDS]
  }

  function Least(a: nat, b: nat): nat {
    if a <= b then a else b
  }

  function Resolve(raw: Settings): Policy {
    var blob := Blob(raw);
    var bands := Bands(blob.agingBands);
    var dead := Days(blob.deadStockDays, DEFAULT.deadStockDays);
    var half := if dead / 2 >= 1 then dead / 2 else 1;
    var slow := Days(blob.slowStockDays, Least(DEFAULT.slowStockDays, half));
    Policy(
      if bands == [] then DEFAULT.agingBands else bands,
      Days(blob.nearExpiryDays, DEFAULT.nearExpiryDays),
      dead,
      Least(slow, dead),
      if blob.fefoEnabled.Flag? then blob.fefoEnabled.on else DEFAULT.fefoEnabled)
  }

  // ----- what a resolved policy is -----

  ghost predicate Rising(bands: seq<int>) {
    forall i, j | 0 <= i < j < |bands| :: bands[i] < bands[j]
  }

  /** Bands are positive, strictly rising and between one and eight; stock is slow
      before it is dead. */
  ghost predicate Sensible(p: Policy) {
    && 1 <= |p.agingBands| <= 8
    && p.agingBands[0] > 0
    && Rising(p.agingBands)
    && p.slowStockDays <= p.deadStockDays
  }

  lemma {:induction false} GivenPositive(items: seq<Setting>)
    ensures forall b | b in Given(items) :: b > 0
  {
    if items == [] {
    } else {
      GivenPositive(items[..|items| - 1]);
    }
  }

  lemma {:induction false} DistinctKeeps(xs: seq<int>, x: int)
    ensures x in Distinct(xs) <==> x in xs
    ensures multiset(Distinct(xs))[x] <= 1
  {
    if xs == [] {
    } else {
      DistinctKeeps(xs[..|xs| - 1], x);
      assert xs == xs[..|xs| - 1] + [xs[|xs| - 1]];
    }
  }

  /** Sorting leaves the distinct numbers strictly rising. */
  lemma SortedRises(xs: seq<int>)
    ensures Rising(OrderBy(Distinct(xs), UpTo))
    ensures forall x :: x in OrderBy(Distinct(xs), UpTo) <==> x in xs
  {
    var sorted := OrderBy(Distinct(xs), UpTo);
    OrderByOrders(Distinct(xs), UpTo);
    forall i, j | 0 <= i < j < |sorted|
      ensures sorted[i] < sorted[j]
    {
      DistinctKeeps(xs, sorted[i]);
      if sorted[i] == sorted[j] {
        Twice(sorted, i, j);
      }
    }
    forall x
      ensures x in sorted <==> x in xs
    {
      DistinctKeeps(xs, x);
      assert x in multiset(sorted) <==> x in multiset(Distinct(xs));
    }
  }

  /** A number is among those given exactly when it is positive and in the list. */
  lemma {:induction false} GivenHolds(items: seq<Setting>, n: int)
    ensures n in Given(items) <==> n > 0 && Number(n as real) in items
  {
    if items == [] {
    } else {
      var front, last := items[..|items| - 1], items[|items| - 1];
      GivenHolds(front, n);
      assert items == front + [last];
      assert last == Number(n as real) ==> last.value.Floor == n;
    }
  }

  /** The bands are the eight smallest distinct positive integers in the list. */
  lemma BandsAreSmallest(items: seq<Setting>)
    ensures var bands := Bands(Array(items));
            && Rising(bands) && |bands| <= 8
            && (forall b | b in bands :: b > 0 && Number(b as real) in items)
            && (forall g: int | g > 0 && Number(g as real) in items && g !in bands ::
                  |bands| == 8 && forall b | b in bands :: b < g)
  {
    SmallestGiven(items);
    var bands := Bands(Array(items));
    forall b: int
      ensures b in Given(items) <==> b > 0 && Number(b as real) in items
    {
      GivenHolds(items, b);
    }
  }

  lemma SmallestGiven(items: seq<Setting>)
    ensures var bands := Bands(Array(items));
            && Rising(bands) && |bands| <= MOST_BANDS
            && (forall b | b in bands :: b in Given(items) && b > 0)
            && (forall g | g in Given(items) && g !in bands :: |bands| == MOST_BANDS && forall b | b in bands :: b < g)
  {
    var given := Given(items);
    var sorted := OrderBy(Distinct(given), UpTo);
    var bands := Bands(Array(items));
    GivenPositive(items);
    SortedRises(given);
    forall g | g in given && g !in bands
      ensures |bands| == MOST_BANDS && forall b | b in bands :: b < g
    {
      var rest := sorted[|bands|..];
      assert sorted == bands + rest;
      assert g in sorted;
      var k :| 0 <= k < |rest| && rest[k] == g;
      assert sorted[|bands| + k] == g;
    }
  }

  /** Any settings at all resolve to a sensible policy. */
  lemma ResolvedIsSensible(raw: Settings)
    ensures Sensible(Resolve(raw))
  {
    var bands := Blob(raw).agingBands;
    if bands.Array? {
      BandsAreSmallest(bands.items);
      assert Bands(bands) != [] ==> Bands(bands)[0] in Bands(bands);
    }
  }

  // ----- thresholds -----

  /** A threshold is a non-negative number's whole part, and the default for anything else. */
  predicate Threshold(given: Setting, fallback: nat, days: nat) {
    if given.Number? && given.value >= 0.0 then days as real <= given.value < days as real + 1.0 else days == fallback
  }

  /** Stock is slow after the days given, or else after half of the dead ones, at least 1 and
      at most 90, but never later than it is dead. */
  predicate SlowThreshold(given: Setting, dead: nat, days: nat) {
    if given.Number? && given.value >= 0.0 then
      if given.value < dead as real then days as real <= given.value < days as real + 1.0 else days == dead
    else if dead == 0 then days == 0
    else if dead < 4 then days == 1
    else if dead < 180 then 2 * days <= dead < 2 * days + 2
    else days == 90
  }

  /** Stock expires soon within 30 days and is dead after 180 unless settings say otherwise,
      FEFO is off unless switched on, and bands default to 30, 60, 90, 180 and 365 days. */
  lemma ResolvedThresholds(bands: Setting, near: Setting, dead: Setting, slow: Setting, fefo: Setting)
    ensures var p := Resolve(Settings(bands, near, dead, slow, fefo));
            && Threshold(near, 30, p.nearExpiryDays) && Threshold(dead, 180, p.deadStockDays)
            && SlowThreshold(slow, p.deadStockDays, p.slowStockDays)
            && (p.fefoEnabled <==> fefo == Flag(true))
            && p.agingBands == if Bands(bands) == [] then DEFAULT.agingBands else Bands(bands)
    ensures DEFAULT.agingBands == [30, 60, 90, 180, 365]
    ensures Resolve(NotAnObject) == Resolve(Settings(Absent, Absent, Absent, Absent, Absent))
  {
    if slow.Number? && slow.value >= 0.0 {
      var d := Resolve(Settings(bands, near, dead, slow, fefo)).deadStockDays;
      assert slow.value >= d as real ==> slow.value.Floor >= d;
    }
  }

  // ----- resolving again -----

  function NumberOf(n: int): Setting {
    Number(n as real)
  }

  function NumbersOf(xs: seq<int>): (items: seq<Setting>)
    ensures |items| == |xs|
  {
    seq(|xs|, i requires 0 <= i < |xs| => NumberOf(xs[i]))
  }

  /** A policy stored back as settings. */
  function Stored(p: Policy): Settings {
    Settings(Array(NumbersOf(p.agingBands)), NumberOf(p.nearExpiryDays), NumberOf(p.deadStockDays),
        NumberOf(p.slowStockDays), Flag(p.fefoEnabled))
  }

  lemma {:induction false} GivenBack(xs: seq<int>)
    requires forall i | 0 <= i < |xs| :: xs[i] > 0
    ensures Given(NumbersOf(xs)) == xs
  {
    if xs == [] {
    } else {
      var front := xs[..|xs| - 1];
      GivenBack(front);
      assert NumbersOf(xs)[..|xs| - 1] == NumbersOf(front);
      assert xs == front + [xs[|xs| - 1]];
    }
  }

  lemma {:induction false} RisingIsDistinct(xs: seq<int>)
    requires Rising(xs)
    ensures Distinct(xs) == xs
  {
    if xs == [] {
    } else {
      var front, last := xs[..|xs| - 1], xs[|xs| - 1];
      RisingIsDistinct(front);
      assert last !in front;
      assert xs == front + [last];
    }
  }

  lemma {:induction false} RisingIsSorted(xs: seq<int>)
    requires Rising(xs)
    ensures OrderBy(xs, UpTo) == xs
  {
    if xs == [] {
    } else {
      RisingIsSorted(xs[..|xs| - 1]);
      assert xs == xs[..|xs| - 1] + [xs[|xs| - 1]];
    }
  }

  /** Resolving leaves exactly the sensible policies as they are, so resolving twice is
      resolving once. */
  lemma ResolvesToItselfExactlyWhen(p: Policy)
    ensures Resolve(Stored(p)) == p <==> Sensible(p)
  {
    ResolvedIsSensible(Stored(p));
    if Sensible(p) {
      GivenBack(p.agingBands);
      RisingIsDistinct(p.agingBands);
      RisingIsSorted(p.agingBands);
    }
  }
}
