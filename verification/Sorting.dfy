/** The database's ORDER BY: a stable sort by a total preorder. */
module Sorting {
  ghost predicate TotalPreorder<T(!new)>(le: (T, T) -> bool) {
    && (forall a, b :: le(a, b) || le(b, a))
    && (forall a, b, c :: le(a, b) && le(b, c) ==> le(a, c))
  }

  ghost predicate Sorted<T>(xs: seq<T>, le: (T, T) -> bool) {
    forall i, j | 0 <= i < j < |xs| :: le(xs[i], xs[j])
  }

  /** Inserts x behind everything that may precede it. */
  function Insert<T>(xs: seq<T>, x: T, le: (T, T) -> bool): seq<T> {
    if xs == [] then [x]
    else if le(xs[|xs| - 1], x) then xs + [x]
    else Insert(xs[..|xs| - 1], x, le) + [xs[|xs| - 1]]
  }

  function OrderBy<T>(xs: seq<T>, le: (T, T) -> bool): seq<T> {
    if xs == [] then []
    else Insert(OrderBy(xs[..|xs| - 1], le), xs[|xs| - 1], le)
  }

  lemma {:induction false} InsertKeeps<T>(xs: seq<T>, x: T, le: (T, T) -> bool)
    ensures multiset(Insert(xs, x, le)) == multiset(xs) + multiset{x}
  {
    if xs == [] {
    } else if le(xs[|xs| - 1], x) {
    } else {
      InsertKeeps(xs[..|xs| - 1], x, le);
      assert xs == xs[..|xs| - 1] + [xs[|xs| - 1]];
    }
  }

  lemma {:induction false} InsertSorts<T(!new)>(xs: seq<T>, x: T, le: (T, T) -> bool)
    requires TotalPreorder(le) && Sorted(xs, le)
    ensures Sorted(Insert(xs, x, le), le)
  {
    if xs == [] {
    } else if le(xs[|xs| - 1], x) {
    } else {
      var last := xs[|xs| - 1];
      var front := xs[..|xs| - 1];
      InsertSorts(front, x, le);
      InsertKeeps(front, x, le);
      forall i | 0 <= i < |Insert(front, x, le)|
        ensures le(Insert(front, x, le)[i], last)
      {
        var y := Insert(front, x, le)[i];
        assert y in multiset(Insert(front, x, le));
        assert y in multiset(front) || y == x;
      }
    }
  }

  /** The result holds exactly the given rows, in order. */
  lemma {:induction false} OrderByOrders<T(!new)>(xs: seq<T>, le: (T, T) -> bool)
    requires TotalPreorder(le)
    ensures multiset(OrderBy(xs, le)) == multiset(xs)
    ensures Sorted(OrderBy(xs, le), le)
  {
    if xs == [] {
    } else {
      OrderByOrders(xs[..|xs| - 1], le);
      InsertKeeps(OrderBy(xs[..|xs| - 1], le), xs[|xs| - 1], le);
      InsertSorts(OrderBy(xs[..|xs| - 1], le), xs[|xs| - 1], le);
      assert xs == xs[..|xs| - 1] + [xs[|xs| - 1]];
    }
  }

  // ----- stability -----

  ghost predicate Before<T>(xs: seq<T>, a: T, b: T) {
    exists i, j | 0 <= i < j < |xs| :: xs[i] == a && xs[j] == b
  }

  lemma BeforeAt<T>(xs: seq<T>, i: nat, j: nat)
    requires i < j < |xs|
    ensures Before(xs, xs[i], xs[j])
  {
  }

  lemma {:induction false} InsertKeepsBefore<T>(xs: seq<T>, x: T, le: (T, T) -> bool, a: T, b: T)
    requires Before(xs, a, b)
    ensures Before(Insert(xs, x, le), a, b)
  {
    var i, j :| 0 <= i < j < |xs| && xs[i] == a && xs[j] == b;
    var n := |xs| - 1;
    if le(xs[n], x) {
      BeforeAt(xs + [x], i, j);
    } else {
      var rest := Insert(xs[..n], x, le);
      InsertKeeps(xs[..n], x, le);
      if j < n {
        BeforeAt(xs[..n], i, j);
        InsertKeepsBefore(xs[..n], x, le, a, b);
        var k, l :| 0 <= k < l < |rest| && rest[k] == a && rest[l] == b;
        BeforeAt(rest + [xs[n]], k, l);
      } else {
        assert xs[..n][i] == a && a in multiset(rest);
        var k :| 0 <= k < |rest| && rest[k] == a;
        BeforeAt(rest + [xs[n]], k, |rest|);
      }
    }
  }

  lemma {:induction false} InsertBehind<T>(xs: seq<T>, x: T, le: (T, T) -> bool, a: T)
    requires a in xs && le(a, x)
    ensures Before(Insert(xs, x, le), a, x)
  {
    var n := |xs| - 1;
    var i :| 0 <= i < |xs| && xs[i] == a;
    if le(xs[n], x) {
      BeforeAt(xs + [x], i, n + 1);
    } else {
      var rest := Insert(xs[..n], x, le);
      assert xs[..n][i] == a;
      InsertBehind(xs[..n], x, le, a);
      var k, l :| 0 <= k < l < |rest| && rest[k] == a && rest[l] == x;
      BeforeAt(rest + [xs[n]], k, l);
    }
  }

  /** An element that may precede a later one stays before it. */
  lemma {:induction false} OrderByStable<T(!new)>(xs: seq<T>, i: nat, j: nat, le: (T, T) -> bool)
    requires TotalPreorder(le) && i < j < |xs| && le(xs[i], xs[j])
    ensures Before(OrderBy(xs, le), xs[i], xs[j])
  {
    var n := |xs| - 1;
    var front := OrderBy(xs[..n], le);
    if j == n {
      OrderByOrders(xs[..n], le);
      assert xs[..n][i] == xs[i] && xs[i] in multiset(front);
      InsertBehind(front, xs[n], le, xs[i]);
    } else {
      OrderByStable(xs[..n], i, j, le);
      InsertKeepsBefore(front, xs[n], le, xs[i], xs[j]);
    }
  }
}
