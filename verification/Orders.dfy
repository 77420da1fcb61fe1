/** Go ranges over a map in an arbitrary order. An order is a duplicate-free sequence of
    the keys; this module relates folds taken in different orders. */
module Orders {

  predicate NoDuplicates<T(==)>(xs: seq<T>) {
    forall i, j :: 0 <= i < j < |xs| ==> xs[i] != xs[j]
  }

  function FlatMap<A, B>(f: A -> seq<B>, xs: seq<A>): seq<B> {
    if xs == [] then [] else f(xs[0]) + FlatMap(f, xs[1..])
  }

  function Map<A, B>(f: A -> B, xs: seq<A>): (ys: seq<B>)
    ensures |ys| == |xs| && forall i :: 0 <= i < |xs| ==> ys[i] == f(xs[i])
  {
    seq(|xs|, i requires 0 <= i < |xs| => f(xs[i]))
  }

  lemma MapConcat<A, B>(f: A -> B, xs: seq<A>, ys: seq<A>)
    ensures Map(f, xs + ys) == Map(f, xs) + Map(f, ys)
  {
  }

  /** Projecting every appended element is appending the projected lists. */
  lemma {:induction false} MapOfFlatMap<A, B, C(!new)>(f: A -> seq<B>, g: B -> C, h: A -> seq<C>, xs: seq<A>)
    requires forall x <- xs :: Map(g, f(x)) == h(x)
    ensures Map(g, FlatMap(f, xs)) == FlatMap(h, xs)
  {
    if xs != [] {
      MapOfFlatMap(f, g, h, xs[1..]);
      var first, rest := f(xs[0]), FlatMap(f, xs[1..]);
      assert Map(g, first + rest) == Map(g, first) + Map(g, rest);
      assert xs[0] in xs;
    }
  }

  lemma {:induction false} FlatMapMembers<A, B>(f: A -> seq<B>, xs: seq<A>, y: B)
    ensures y in FlatMap(f, xs) <==> exists x <- xs :: y in f(x)
  {
    if xs != [] {
      FlatMapMembers(f, xs[1..], y);
      assert xs == [xs[0]] + xs[1..];
    }
  }

  lemma {:induction false} FlatMapConcat<A, B>(f: A -> seq<B>, xs: seq<A>, ys: seq<A>)
    ensures FlatMap(f, xs + ys) == FlatMap(f, xs) + FlatMap(f, ys)
  {
    if xs == [] {
      assert xs + ys == ys;
    } else {
      assert (xs + ys)[1..] == xs[1..] + ys;
      FlatMapConcat(f, xs[1..], ys);
    }
  }

  /** Appending per-element lists in any order gives the same multiset. */
  lemma {:induction false} FlatMapOrderIndependent<A, B>(f: A -> seq<B>, xs: seq<A>, ys: seq<A>)
    requires multiset(xs) == multiset(ys)
    ensures multiset(FlatMap(f, xs)) == multiset(FlatMap(f, ys))
  {
    if xs == [] {
      assert |multiset(ys)| == 0;
    } else {
      var x := xs[0];
      assert x in multiset(ys);
      var i :| 0 <= i < |ys| && ys[i] == x;
      var rest := ys[..i] + ys[i + 1..];
      assert xs == [x] + xs[1..];
      assert ys == ys[..i] + ([x] + ys[i + 1..]);
      assert multiset(xs[1..]) == multiset(xs) - multiset{x};
      assert multiset(rest) == multiset(ys) - multiset{x};
      FlatMapOrderIndependent(f, xs[1..], rest);
      FlatMapConcat(f, ys[..i], ys[i + 1..]);
      FlatMapConcat(f, ys[..i], [x] + ys[i + 1..]);
      FlatMapConcat(f, [x], ys[i + 1..]);
    }
  }

  lemma {:induction false} FlatMapOfNone<A, B>(f: A -> seq<B>, xs: seq<A>)
    requires forall x <- xs :: f(x) == []
    ensures FlatMap(f, xs) == []
  {
    if xs != [] {
      FlatMapOfNone(f, xs[1..]);
    }
  }

  lemma FlatMapOfOne<A, B>(f: A -> seq<B>, xs: seq<A>, a: A)
    requires NoDuplicates(xs) && a in xs && forall x <- xs :: x != a ==> f(x) == []
    ensures FlatMap(f, xs) == f(a)
  {
    var i :| 0 <= i < |xs| && xs[i] == a;
    assert xs == xs[..i] + [a] + xs[i + 1..];
    FlatMapAround(f, xs[..i], a, xs[i + 1..]);
  }

  lemma FlatMapAround<A, B>(f: A -> seq<B>, xs: seq<A>, a: A, ys: seq<A>)
    requires (forall x <- xs :: f(x) == []) && forall y <- ys :: f(y) == []
    ensures FlatMap(f, xs + [a] + ys) == f(a)
  {
    FlatMapConcat(f, xs + [a], ys);
    FlatMapConcat(f, xs, [a]);
    FlatMapOfNone(f, xs);
    FlatMapOfNone(f, ys);
  }

  /** When at most one element has anything to append, the order does not matter at all. */
  lemma OneContributorAnyOrder<A, B>(f: A -> seq<B>, xs: seq<A>, ys: seq<A>)
    requires multiset(xs) == multiset(ys) && NoDuplicates(xs) && NoDuplicates(ys)
    requires forall x, y :: x in xs && y in xs && f(x) != [] && f(y) != [] ==> x == y
    ensures FlatMap(f, xs) == FlatMap(f, ys)
  {
    PermutationKeepsElements(xs, ys);
    if a :| a in xs && f(a) != [] {
      FlatMapOfOne(f, xs, a);
      FlatMapOfOne(f, ys, a);
    } else {
      FlatMapOfNone(f, xs);
      FlatMapOfNone(f, ys);
    }
  }

  /** Duplicate-free sequences with the same elements are permutations of each other. */
  lemma SameElementsSameMultiset<T>(xs: seq<T>, ys: seq<T>)
    requires NoDuplicates(xs) && NoDuplicates(ys)
    requires forall x :: x in xs <==> x in ys
    ensures multiset(xs) == multiset(ys)
  {
    forall x
      ensures multiset(xs)[x] == multiset(ys)[x]
    {
      CountAtMostOne(xs, x);
      CountAtMostOne(ys, x);
    }
  }

  lemma {:induction false} CountAtMostOne<T>(xs: seq<T>, x: T)
    requires NoDuplicates(xs)
    ensures multiset(xs)[x] == if x in xs then 1 else 0
  {
    if xs != [] {
      assert xs == [xs[0]] + xs[1..];
      CountAtMostOne(xs[1..], x);
    }
  }

  lemma NoDuplicatesConcat<T>(xs: seq<T>, ys: seq<T>)
    ensures NoDuplicates(xs + ys) <==> NoDuplicates(xs) && NoDuplicates(ys) && forall x <- xs :: x !in ys
  {
    var all := xs + ys;
    if NoDuplicates(all) {
      forall i, j | 0 <= i < |xs| && 0 <= j < |ys|
        ensures xs[i] != ys[j]
      {
        assert all[i] == xs[i] && all[|xs| + j] == ys[j];
      }
      forall i, j | 0 <= i < j < |ys|
        ensures ys[i] != ys[j]
      {
        assert all[|xs| + i] == ys[i] && all[|xs| + j] == ys[j];
      }
      forall i, j | 0 <= i < j < |xs|
        ensures xs[i] != xs[j]
      {
        assert all[i] == xs[i] && all[j] == xs[j];
      }
    }
    if NoDuplicates(xs) && NoDuplicates(ys) && forall x <- xs :: x !in ys {
      forall i, j | 0 <= i < j < |all|
        ensures all[i] != all[j]
      {
        assert i < |xs| ==> all[i] == xs[i] && all[i] in xs;
        assert j >= |xs| ==> all[j] == ys[j - |xs|] && all[j] in ys;
      }
    }
  }

  /** A permutation has the same elements. */
  lemma PermutationKeepsElements<T>(xs: seq<T>, ys: seq<T>)
    requires multiset(xs) == multiset(ys)
    ensures |xs| == |ys|
    ensures forall x :: x in xs <==> x in ys
  {
    assert |multiset(xs)| == |multiset(ys)|;
    forall x
      ensures x in xs <==> x in ys
    {
      assert x in xs <==> x in multiset(xs);
      assert x in ys <==> x in multiset(ys);
    }
  }

  /** Everything the lists of the elements of `xs` hold. */
  function Union<A, B>(f: A -> seq<B>, xs: set<A>): set<B> {
    set x, y | x in xs && y in f(x) :: y
  }

  lemma UnionAdd<A, B>(f: A -> seq<B>, xs: set<A>, a: A)
    requires NoDuplicates(f(a))
    requires forall y <- f(a) :: y !in Union(f, xs)
    ensures multiset(Union(f, xs + {a})) == multiset(Union(f, xs)) + multiset(f(a))
    ensures |Union(f, xs + {a})| == |Union(f, xs)| + |f(a)|
  {
    var before, after, added := Union(f, xs), Union(f, xs + {a}), set y | y in f(a);
    assert after == before + added;
    MultisetOfDistinct(f(a));
    assert multiset(after) == multiset(before) + multiset(added);
    assert |multiset(after)| == |multiset(before)| + |multiset(f(a))|;
  }

  lemma MultisetOfDistinct<T>(xs: seq<T>)
    requires NoDuplicates(xs)
    ensures multiset(set x | x in xs) == multiset(xs)
  {
    forall x
      ensures multiset(xs)[x] == if x in xs then 1 else 0
    {
      CountAtMostOne(xs, x);
    }
  }
}
