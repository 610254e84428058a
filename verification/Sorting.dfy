/** The stable sort of a sequence by a comparison given as a rank: elements of equal rank keep
    their order, whatever they are. */
module Sorting {
  import opened Options

  function Insert<T>(x: T, ys: seq<T>, rank: T -> real): seq<T> {
    if ys == [] || rank(x) <= rank(ys[0]) then [x] + ys
    else [ys[0]] + Insert(x, ys[1..], rank)
  }

  function Sort<T>(xs: seq<T>, rank: T -> real): seq<T> {
    if xs == [] then [] else Insert(xs[0], Sort(xs[1..], rank), rank)
  }

  /** `a` may stand before `b`: by `major`, then by `minor`. */
  predicate Before<T>(major: T -> real, minor: T -> real, a: T, b: T) {
    major(a) < major(b) || (major(a) == major(b) && minor(a) <= minor(b))
  }

  ghost predicate Sorted<T>(xs: seq<T>, major: T -> real, minor: T -> real) {
    forall i, j :: 0 <= i < j < |xs| ==> Before(major, minor, xs[i], xs[j])
  }

  ghost predicate SortedBy<T>(xs: seq<T>, rank: T -> real) {
    forall i, j :: 0 <= i < j < |xs| ==> rank(xs[i]) <= rank(xs[j])
  }

  ghost predicate Distinct<T(!new)>(xs: seq<T>) {
    forall i, j :: 0 <= i < j < |xs| ==> xs[i] != xs[j]
  }

  lemma {:induction false} InsertPermutes<T(!new)>(x: T, ys: seq<T>, rank: T -> real)
    ensures multiset(Insert(x, ys, rank)) == multiset([x] + ys)
  {
    if ys != [] && rank(x) > rank(ys[0]) {
      InsertPermutes(x, ys[1..], rank);
      assert ys == [ys[0]] + ys[1..];
    }
  }

  lemma {:induction false} SortPermutes<T(!new)>(xs: seq<T>, rank: T -> real)
    ensures multiset(Sort(xs, rank)) == multiset(xs)
  {
    if xs != [] {
      SortPermutes(xs[1..], rank);
      InsertPermutes(xs[0], Sort(xs[1..], rank), rank);
      assert xs == [xs[0]] + xs[1..];
    }
  }

  lemma SortMembers<T(!new)>(xs: seq<T>, rank: T -> real)
    ensures |Sort(xs, rank)| == |xs|
    ensures forall x :: x in Sort(xs, rank) <==> x in xs
  {
    SortPermutes(xs, rank);
    assert |multiset(Sort(xs, rank))| == |multiset(xs)|;
    forall x
      ensures x in Sort(xs, rank) <==> x in xs
    {
      assert x in multiset(Sort(xs, rank)) <==> x in multiset(xs);
    }
  }

  /** Inserting an element that precedes its equals by `minor` keeps both orders. */
  lemma {:induction false} InsertSorted<T(!new)>(x: T, ys: seq<T>, major: T -> real, minor: T -> real)
    requires Sorted(ys, major, minor)
    requires forall y :: y in ys ==> minor(x) <= minor(y)
    ensures Sorted(Insert(x, ys, major), major, minor)
  {
    if ys != [] && major(x) > major(ys[0]) {
      InsertSorted(x, ys[1..], major, minor);
      InsertPermutes(x, ys[1..], major);
      var zs := Insert(x, ys[1..], major);
      forall z | z in zs
        ensures Before(major, minor, ys[0], z)
      {
        assert z in multiset(zs);
        assert z in [x] + ys[1..];
      }
    } else {
      forall y | y in ys
        ensures Before(major, minor, x, y)
      {
        if y != ys[0] {
          assert Before(major, minor, ys[0], y);
        }
      }
    }
  }

  /** Sorting stably by `major` what is sorted by `minor` sorts by both. */
  lemma {:induction false} StableSort<T(!new)>(xs: seq<T>, major: T -> real, minor: T -> real)
    requires SortedBy(xs, minor)
    ensures Sorted(Sort(xs, major), major, minor)
  {
    if xs != [] {
      StableSort(xs[1..], major, minor);
      SortMembers(xs[1..], major);
      forall y | y in Sort(xs[1..], major)
        ensures minor(xs[0]) <= minor(y)
      {
        assert y in xs[1..];
        var i :| 0 <= i < |xs[1..]| && xs[1..][i] == y;
        assert xs[i + 1] == y;
      }
      InsertSorted(xs[0], Sort(xs[1..], major), major, minor);
    }
  }

  lemma SortSorts<T(!new)>(xs: seq<T>, rank: T -> real)
    ensures SortedBy(Sort(xs, rank), rank)
  {
    var level := (x: T) => 0.0;
    StableSort(xs, rank, level);
    assert Sorted(Sort(xs, rank), rank, level);
    assert forall i, j :: 0 <= i < j < |Sort(xs, rank)| ==>
      Before(rank, level, Sort(xs, rank)[i], Sort(xs, rank)[j]);
  }

  lemma {:induction false} SortFixed<T(!new)>(xs: seq<T>, rank: T -> real)
    requires SortedBy(xs, rank)
    ensures Sort(xs, rank) == xs
  {
    if xs != [] {
      SortFixed(xs[1..], rank);
    }
  }

  /** No two different elements of the sequence are level in both orders. */
  ghost predicate Separated<T(!new)>(xs: seq<T>, major: T -> real, minor: T -> real) {
    forall x, y :: x in xs && y in xs && major(x) == major(y) && minor(x) == minor(y) ==> x == y
  }

  /** Sorted sequences of the same elements, none level with another, are the same sequence. */
  lemma {:induction false} SortedUnique<T(!new)>(xs: seq<T>, ys: seq<T>, major: T -> real, minor: T -> real)
    requires Sorted(xs, major, minor) && Sorted(ys, major, minor)
    requires multiset(xs) == multiset(ys) && Separated(xs, major, minor)
    ensures xs == ys
  {
    assert |multiset(xs)| == |multiset(ys)|;
    if xs != [] {
      var a, b := xs[0], ys[0];
      assert a in multiset(ys) && b in multiset(xs);
      assert a == b || Before(major, minor, a, b);
      assert a == b || Before(major, minor, b, a);
      assert a == b;
      assert xs == [a] + xs[1..] && ys == [a] + ys[1..];
      assert multiset(xs[1..]) == multiset(xs) - multiset{a};
      assert multiset(ys[1..]) == multiset(ys) - multiset{a};
      SortedUnique(xs[1..], ys[1..], major, minor);
    }
  }

  lemma RepeatCounts<T(!new)>(xs: seq<T>, i: nat, j: nat)
    requires i < j < |xs|
    ensures xs[i] == xs[j] ==> multiset(xs)[xs[i]] >= 2
  {
    assert xs == xs[..j] + [xs[j]] + xs[j + 1..];
    assert xs[i] in xs[..j];
  }

  lemma DistinctFromMultiset<T(!new)>(xs: seq<T>, ys: seq<T>)
    requires multiset(xs) == multiset(ys) && Distinct(xs)
    ensures Distinct(ys)
  {
    DistinctCounts(xs);
    forall i, j | 0 <= i < j < |ys|
      ensures ys[i] != ys[j]
    {
      RepeatCounts(ys, i, j);
    }
  }

  lemma {:induction false} DistinctCounts<T(!new)>(xs: seq<T>)
    requires Distinct(xs)
    ensures forall x :: multiset(xs)[x] <= 1
  {
    if xs != [] {
      DistinctCounts(xs[1..]);
      assert xs == [xs[0]] + xs[1..];
      assert xs[0] !in xs[1..];
    }
  }

  /** A stable sort by `minor` and then by `major`, as one order. */
  function Sort2<T>(xs: seq<T>, major: T -> real, minor: T -> real): seq<T> {
    Sort(Sort(xs, minor), major)
  }

  lemma Sort2Sorts<T(!new)>(xs: seq<T>, major: T -> real, minor: T -> real)
    ensures Sorted(Sort2(xs, major, minor), major, minor)
    ensures multiset(Sort2(xs, major, minor)) == multiset(xs)
    ensures |Sort2(xs, major, minor)| == |xs|
    ensures forall x :: x in Sort2(xs, major, minor) <==> x in xs
    ensures Distinct(xs) ==> Distinct(Sort2(xs, major, minor))
  {
    SortSorts(xs, minor);
    StableSort(Sort(xs, minor), major, minor);
    SortMembers(xs, minor);
    SortMembers(Sort(xs, minor), major);
    SortPermutes(xs, minor);
    SortPermutes(Sort(xs, minor), major);
    if Distinct(xs) {
      DistinctFromMultiset(xs, Sort2(xs, major, minor));
    }
  }

  /** An element that may stand before all others comes out first: sorting by `minor` moves only
      elements past it that `major` brings back. */
  lemma {:induction false} FrontStays<T(!new)>(x: T, ys: seq<T>, major: T -> real, minor: T -> real)
    requires forall y :: y in ys ==> Before(major, minor, x, y)
    ensures Sort(Insert(x, ys, minor), major) == [x] + Sort(ys, major)
  {
    SortMembers(ys, major);
    if ys == [] || minor(x) <= minor(ys[0]) {
      assert ([x] + ys)[1..] == ys;
      assert ys != [] ==> Sort(ys, major)[0] in ys;
    } else {
      var rest := ys[1..];
      FrontStays(x, rest, major, minor);
      assert Insert(x, ys, minor)[1..] == Insert(x, rest, minor);
      assert ([x] + Sort(rest, major))[1..] == Sort(rest, major);
    }
  }

  /** What is in order stays as it is, elements that are level included. */
  lemma {:induction false} Sort2Fixed<T(!new)>(xs: seq<T>, major: T -> real, minor: T -> real)
    requires Sorted(xs, major, minor)
    ensures Sort2(xs, major, minor) == xs
  {
    if xs != [] {
      Sort2Fixed(xs[1..], major, minor);
      SortMembers(xs[1..], minor);
      FrontStays(xs[0], Sort(xs[1..], minor), major, minor);
    }
  }

  lemma Sort2Idempotent<T(!new)>(xs: seq<T>, major: T -> real, minor: T -> real)
    ensures Sort2(Sort2(xs, major, minor), major, minor) == Sort2(xs, major, minor)
  {
    Sort2Sorts(xs, major, minor);
    Sort2Fixed(Sort2(xs, major, minor), major, minor);
  }

  /** The first element of a class. */
  function First<T>(xs: seq<T>, among: T -> bool): Option<T> {
    if xs == [] then None else if among(xs[0]) then Some(xs[0]) else First(xs[1..], among)
  }

  /** The elements of the class are level with each other. */
  ghost predicate OneLevel<T(!new)>(rank: T -> real, among: T -> bool) {
    forall x, y :: among(x) && among(y) ==> rank(x) == rank(y)
  }

  lemma {:induction false} InsertKeepsFirst<T(!new)>(x: T, ys: seq<T>, rank: T -> real, among: T -> bool)
    requires SortedBy(ys, rank) && OneLevel(rank, among)
    ensures First(Insert(x, ys, rank), among) == if among(x) then Some(x) else First(ys, among)
  {
    if ys == [] || rank(x) <= rank(ys[0]) {
      assert ([x] + ys)[1..] == ys;
    } else {
      InsertKeepsFirst(x, ys[1..], rank, among);
      assert ([ys[0]] + Insert(x, ys[1..], rank))[1..] == Insert(x, ys[1..], rank);
    }
  }

  /** A stable sort keeps the first of the elements it finds level. */
  lemma {:induction false} SortKeepsFirst<T(!new)>(xs: seq<T>, rank: T -> real, among: T -> bool)
    requires OneLevel(rank, among)
    ensures First(Sort(xs, rank), among) == First(xs, among)
  {
    if xs != [] {
      SortKeepsFirst(xs[1..], rank, among);
      SortSorts(xs[1..], rank);
      InsertKeepsFirst(xs[0], Sort(xs[1..], rank), rank, among);
    }
  }

  lemma SameMembers<T(!new)>(xs: seq<T>, ys: seq<T>)
    requires Distinct(xs) && Distinct(ys)
    requires forall x :: x in xs <==> x in ys
    ensures multiset(xs) == multiset(ys)
  {
    DistinctCounts(xs);
    DistinctCounts(ys);
    forall x
      ensures multiset(xs)[x] == multiset(ys)[x]
    {
      assert x in xs <==> x in multiset(xs);
      assert x in ys <==> x in multiset(ys);
    }
  }

  /** Any arrangement of separated elements sorts to the same sequence. */
  lemma Sort2Canonical<T(!new)>(xs: seq<T>, ys: seq<T>, major: T -> real, minor: T -> real)
    requires multiset(xs) == multiset(ys) && Separated(xs, major, minor)
    ensures Sort2(xs, major, minor) == Sort2(ys, major, minor)
  {
    Sort2Sorts(xs, major, minor);
    Sort2Sorts(ys, major, minor);
    SortedUnique(Sort2(xs, major, minor), Sort2(ys, major, minor), major, minor);
  }

  lemma SortCanonical<T(!new)>(xs: seq<T>, ys: seq<T>, rank: T -> real)
    requires multiset(xs) == multiset(ys)
    requires forall x, y :: x in xs && y in xs && rank(x) == rank(y) ==> x == y
    ensures Sort(xs, rank) == Sort(ys, rank)
  {
    var level := (x: T) => 0.0;
    SortMembers(xs, rank);
    SortPermutes(xs, rank);
    SortPermutes(ys, rank);
    StableSort(xs, rank, level);
    StableSort(ys, rank, level);
    SortedUnique(Sort(xs, rank), Sort(ys, rank), rank, level);
  }
}
