/** Sequences up to their order. */
module Permutations {

  /** The concatenation of f's results, in order. */
  function Collect<T, U>(xs: seq<T>, f: T -> seq<U>): seq<U> {
    if xs == [] then [] else Collect(xs[..|xs| - 1], f) + f(xs[|xs| - 1])
  }

  lemma {:induction false} SameLength<T>(a: seq<T>, b: seq<T>)
    requires multiset(a) == multiset(b)
    ensures |a| == |b|
  {
    assert |multiset(a)| == |a| && |multiset(b)| == |b|;
  }

  lemma {:induction false} SameMembers<T>(a: seq<T>, b: seq<T>)
    requires multiset(a) == multiset(b)
    ensures forall x :: x in a <==> x in b
  {
    assert forall x :: x in a <==> x in multiset(a);
    assert forall x :: x in b <==> x in multiset(b);
  }

  lemma {:induction false} Cancelled<T>(a: multiset<T>, b: multiset<T>, x: T)
    requires a + multiset{x} == b + multiset{x}
    ensures a == b
  {
    assert a == (a + multiset{x}) - multiset{x} && b == (b + multiset{x}) - multiset{x};
  }

  /** Two arrangements of a multiset: where the second has the first one's last element. */
  lemma {:induction false} Elsewhere<T>(a: seq<T>, b: seq<T>) returns (i: nat)
    requires multiset(a) == multiset(b) && a != []
    ensures i < |b| && b[i] == a[|a| - 1] && multiset(a[..|a| - 1]) == multiset(b[..i] + b[i + 1..])
    ensures b == b[..i] + [b[i]] + b[i + 1..]
  {
    var k := |a| - 1;
    assert a == a[..k] + [a[k]];
    assert a[k] in multiset(b);
    i :| 0 <= i < |b| && b[i] == a[k];
    assert b == b[..i] + [b[i]] + b[i + 1..];
    assert multiset(a) == multiset(a[..k]) + multiset{a[k]};
    assert multiset(b) == multiset(b[..i] + b[i + 1..]) + multiset{b[i]};
    Cancelled(multiset(a[..k]), multiset(b[..i] + b[i + 1..]), a[k]);
  }

  lemma {:induction false} CollectConcat<T, U>(a: seq<T>, b: seq<T>, f: T -> seq<U>)
    ensures Collect(a + b, f) == Collect(a, f) + Collect(b, f)
  {
    if b == [] {
      assert a + b == a;
    } else {
      var k := |b| - 1;
      assert (a + b)[..|a + b| - 1] == a + b[..k];
      CollectConcat(a, b[..k], f);
    }
  }

  /** Collecting from a permutation gives a permutation. */
  lemma {:induction false} CollectPermuted<T, U>(a: seq<T>, b: seq<T>, f: T -> seq<U>)
    requires multiset(a) == multiset(b)
    ensures multiset(Collect(a, f)) == multiset(Collect(b, f))
  {
    SameLength(a, b);
    if a != [] {
      var k := |a| - 1;
      var x := a[k];
      var i := Elsewhere(a, b);
      CollectPermuted(a[..k], b[..i] + b[i + 1..], f);
      assert a == a[..k] + [x];
      CollectConcat(a[..k], [x], f);
      CollectConcat(b[..i], [x], f);
      CollectConcat(b[..i] + [x], b[i + 1..], f);
      CollectConcat(b[..i], b[i + 1..], f);
      hide Collect;
      assert multiset(Collect(b, f)) == multiset(Collect(b[..i] + b[i + 1..], f)) + multiset(Collect([x], f));
    }
  }

  // ---------------------------------------------------------------- sorting by a rank

  function Insert<T>(xs: seq<T>, x: T, rank: T -> int): seq<T> {
    if xs == [] || rank(xs[|xs| - 1]) <= rank(x) then xs + [x] else Insert(xs[..|xs| - 1], x, rank) + [xs[|xs| - 1]]
  }

  function Sort<T>(xs: seq<T>, rank: T -> int): seq<T> {
    if xs == [] then [] else Insert(Sort(xs[..|xs| - 1], rank), xs[|xs| - 1], rank)
  }

  predicate Sorted<T>(xs: seq<T>, rank: T -> int) { forall i, j :: 0 <= i < j < |xs| ==> rank(xs[i]) <= rank(xs[j]) }

  lemma {:induction false} InsertedHolds<T>(xs: seq<T>, x: T, rank: T -> int)
    ensures multiset(Insert(xs, x, rank)) == multiset(xs) + multiset{x} && |Insert(xs, x, rank)| == |xs| + 1
    ensures forall i :: 0 <= i < |xs| + 1 ==> Insert(xs, x, rank)[i] in xs || Insert(xs, x, rank)[i] == x
  {
    if !(xs == [] || rank(xs[|xs| - 1]) <= rank(x)) {
      var k := |xs| - 1;
      InsertedHolds(xs[..k], x, rank);
      assert xs == xs[..k] + [xs[k]];
    }
  }

  lemma {:induction false} InsertedSorted<T>(xs: seq<T>, x: T, rank: T -> int)
    requires Sorted(xs, rank)
    ensures Sorted(Insert(xs, x, rank), rank)
  {
    if !(xs == [] || rank(xs[|xs| - 1]) <= rank(x)) {
      var k := |xs| - 1;
      InsertedSorted(xs[..k], x, rank);
      InsertedHolds(xs[..k], x, rank);
      var ys := Insert(xs[..k], x, rank);
      assert forall i :: 0 <= i < |ys| ==> rank(ys[i]) <= rank(xs[k]);
    }
  }

  lemma {:induction false} SortedPermutation<T>(xs: seq<T>, rank: T -> int)
    ensures Sorted(Sort(xs, rank), rank) && multiset(Sort(xs, rank)) == multiset(xs) && |Sort(xs, rank)| == |xs|
  {
    if xs != [] {
      hide Sorted, Insert;
      var k := |xs| - 1;
      SortedPermutation(xs[..k], rank);
      InsertedSorted(Sort(xs[..k], rank), xs[k], rank);
      InsertedHolds(Sort(xs[..k], rank), xs[k], rank);
      assert xs == xs[..k] + [xs[k]];
    }
  }

  lemma {:induction false} LastIsGreatest<T>(a: seq<T>, x: T, rank: T -> int)
    requires Sorted(a, rank) && x in multiset(a)
    ensures a != [] && rank(x) <= rank(a[|a| - 1])
  {
    var i :| 0 <= i < |a| && a[i] == x;
  }

  /** No two different elements have the same rank. */
  ghost predicate Ranked<T(!new)>(xs: seq<T>, rank: T -> int) { forall x, y :: x in xs && y in xs && rank(x) == rank(y) ==> x == y }

  lemma {:induction false} SplitLast<T>(a: seq<T>)
    requires a != []
    ensures var k := |a| - 1;
      a[k] in multiset(a) && multiset(a) == multiset(a[..k]) + multiset{a[k]} && a == a[..k] + [a[k]]
  {
    assert a == a[..|a| - 1] + [a[|a| - 1]];
  }

  lemma {:induction false} SameGreatest<T(!new)>(a: seq<T>, b: seq<T>, rank: T -> int)
    requires Sorted(a, rank) && Sorted(b, rank) && multiset(a) == multiset(b) && a != [] && b != [] && Ranked(a, rank)
    ensures a[|a| - 1] == b[|b| - 1]
  {
    hide Sorted;
    var x, y := a[|a| - 1], b[|b| - 1];
    SplitLast(a);
    SplitLast(b);
    LastIsGreatest(a, y, rank);
    LastIsGreatest(b, x, rank);
    assert y in multiset(a);
    assert y in a && x in a;
  }

  lemma {:induction false} SameLast<T(!new)>(a: seq<T>, b: seq<T>, rank: T -> int)
    requires Sorted(a, rank) && Sorted(b, rank) && multiset(a) == multiset(b) && a != [] && Ranked(a, rank)
    ensures b != [] && a[|a| - 1] == b[|b| - 1] && multiset(a[..|a| - 1]) == multiset(b[..|b| - 1])
  {
    hide Sorted, Ranked;
    SameLength(a, b);
    SameGreatest(a, b, rank);
    SplitLast(a);
    SplitLast(b);
    Cancelled(multiset(a[..|a| - 1]), multiset(b[..|b| - 1]), a[|a| - 1]);
  }

  /** Ranked elements have one sorted arrangement. */
  lemma {:induction false} SortedUnique<T(!new)>(a: seq<T>, b: seq<T>, rank: T -> int)
    requires Sorted(a, rank) && Sorted(b, rank) && multiset(a) == multiset(b) && Ranked(a, rank)
    ensures a == b
  {
    SameLength(a, b);
    if a != [] {
      var k := |a| - 1;
      SameLast(a, b, rank);
      SortedUnique(a[..k], b[..k], rank);
      assert a == a[..k] + [a[k]] && b == b[..k] + [b[k]];
    }
  }
}
