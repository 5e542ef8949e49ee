/** Facts about any sequences: elements that occur once, and concatenation. */
module Sequences {
  ghost predicate AllDiffer<T(!new)>(xs: seq<T>) {
    forall i, j | 0 <= i < j < |xs| :: xs[i] != xs[j]
  }

  lemma Twice<T>(xs: seq<T>, i: nat, j: nat)
    requires i < j < |xs| && xs[i] == xs[j]
    ensures multiset(xs)[xs[i]] >= 2
  {
    assert xs == xs[..j] + xs[j..];
    assert xs[i] in xs[..j] && xs[i] == xs[j..][0];
    assert multiset(xs) == multiset(xs[..j]) + multiset(xs[j..]);
  }

  lemma {:induction false} OnceEach<T(!new)>(xs: seq<T>, x: T)
    requires AllDiffer(xs)
    ensures multiset(xs)[x] <= 1
  {
    if xs == [] {
    } else {
      var front := xs[..|xs| - 1];
      assert xs == front + [xs[|xs| - 1]];
      OnceEach(front, x);
      if xs[|xs| - 1] == x {
        assert x !in front;
        assert multiset(front)[x] == 0;
      }
    }
  }

  /** Elements that differ still differ in any other order. */
  lemma DifferInAnyOrder<T(!new)>(xs: seq<T>, ordered: seq<T>)
    requires AllDiffer(xs) && multiset(ordered) == multiset(xs)
    ensures AllDiffer(ordered)
  {
    forall i, j | 0 <= i < j < |ordered|
      ensures ordered[i] != ordered[j]
    {
      OnceEach(xs, ordered[i]);
      if ordered[i] == ordered[j] {
        Twice(ordered, i, j);
      }
    }
  }

  lemma SameElements<T(!new)>(xs: seq<T>, ordered: seq<T>)
    requires multiset(ordered) == multiset(xs)
    ensures forall x :: x in ordered <==> x in xs
  {
    forall x
      ensures x in ordered <==> x in xs
    {
      assert x in ordered <==> x in multiset(ordered);
      assert x in xs <==> x in multiset(xs);
    }
  }

  lemma Regroup<T>(a: seq<T>, b: seq<T>, c: seq<T>)
    ensures a + b + c == a + (b + c)
  {
  }
}
