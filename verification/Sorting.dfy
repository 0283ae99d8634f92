/** Sorting by an ordering, and the order of strings. */
module Sorting {
  import opened Base

  /** A strict weak order. */
  ghost predicate Ordering<T(!new)>(less: (T, T) -> bool) {
    && (forall x :: !less(x, x))
    && (forall x, y, z {:trigger less(x, y), less(y, z)} :: less(x, y) && less(y, z) ==> less(x, z))
    && (forall x, y, z {:trigger less(x, z), less(x, y)} {:trigger less(x, z), less(y, z)} :: less(x, z) ==>
      less(x, y) || less(y, z))
  }

  ghost predicate Sorted<T>(less: (T, T) -> bool, xs: seq<T>) {
    forall i, j :: 0 <= i < j < |xs| ==> !less(xs[j], xs[i])
  }

  /** No two elements are tied, so that there is one way only to sort them. */
  ghost predicate Untied<T(!new)>(less: (T, T) -> bool, xs: seq<T>) {
    forall i, j :: 0 <= i < j < |xs| ==> less(xs[i], xs[j]) || less(xs[j], xs[i])
  }

  function Insert<T>(less: (T, T) -> bool, x: T, ys: seq<T>): seq<T> {
    if ys == [] then [x]
    else if less(ys[0], x) then [ys[0]] + Insert(less, x, ys[1..])
    else [x] + ys
  }

  function Sort<T>(less: (T, T) -> bool, xs: seq<T>): seq<T> {
    if xs == [] then [] else Insert(less, xs[0], Sort(less, xs[1..]))
  }

  lemma {:induction false} InsertKeeps<T>(less: (T, T) -> bool, x: T, ys: seq<T>)
    ensures multiset(Insert(less, x, ys)) == multiset{x} + multiset(ys)
    ensures |Insert(less, x, ys)| == |ys| + 1
  {
    if ys != [] {
      assert ys == [ys[0]] + ys[1..];
      InsertKeeps(less, x, ys[1..]);
    }
  }

  lemma {:induction false} SortKeeps<T>(less: (T, T) -> bool, xs: seq<T>)
    ensures multiset(Sort(less, xs)) == multiset(xs)
    ensures |Sort(less, xs)| == |xs|
  {
    if xs != [] {
      assert xs == [xs[0]] + xs[1..];
      SortKeeps(less, xs[1..]);
      InsertKeeps(less, xs[0], Sort(less, xs[1..]));
    }
  }

  lemma SameElements<T>(xs: seq<T>, ys: seq<T>)
    requires multiset(xs) == multiset(ys)
    ensures forall x :: x in xs <==> x in ys
  {
    assert forall x :: x in xs <==> x in multiset(xs);
    assert forall x :: x in ys <==> x in multiset(ys);
  }

  lemma {:induction false} InsertSorts<T(!new)>(less: (T, T) -> bool, x: T, ys: seq<T>)
    requires Ordering(less) && Sorted(less, ys)
    ensures Sorted(less, Insert(less, x, ys))
  {
    if ys != [] {
      var rest := ys[1..];
      if less(ys[0], x) {
        InsertSorts(less, x, rest);
        InsertKeeps(less, x, rest);
        var zs := Insert(less, x, rest);
        forall j | 0 <= j < |zs|
          ensures !less(zs[j], ys[0])
        {
          assert zs[j] in multiset(zs);
          assert zs[j] == x || zs[j] in rest;
          assert less(ys[0], x) && less(x, ys[0]) ==> less(x, x);
        }
      } else {
        forall j | 0 <= j < |ys|
          ensures !less(ys[j], x)
        {
          var first, y := ys[0], ys[j];
          assert less(y, x) ==> less(y, first) || less(first, x);
        }
      }
    }
  }

  lemma {:induction false} SortSorts<T(!new)>(less: (T, T) -> bool, xs: seq<T>)
    requires Ordering(less)
    ensures Sorted(less, Sort(less, xs))
  {
    if xs != [] {
      SortSorts(less, xs[1..]);
      InsertSorts(less, xs[0], Sort(less, xs[1..]));
    }
  }

  lemma SameHead<T(!new)>(less: (T, T) -> bool, xs: seq<T>, ys: seq<T>)
    requires Ordering(less) && Sorted(less, xs) && Sorted(less, ys) && Untied(less, xs)
    requires multiset(xs) == multiset(ys) && xs != [] && ys != []
    ensures xs[0] == ys[0]
  {
    SameElements(xs, ys);
    assert ys[0] in xs && xs[0] in ys;
    var i :| 0 <= i < |xs| && xs[i] == ys[0];
    var j :| 0 <= j < |ys| && ys[j] == xs[0];
    var x, y := xs[0], xs[i];
    assert i == 0 || less(x, y) || less(y, x);
  }

  lemma SameTail<T>(xs: seq<T>, ys: seq<T>)
    requires multiset(xs) == multiset(ys) && xs != [] && ys != [] && xs[0] == ys[0]
    ensures multiset(xs[1..]) == multiset(ys[1..])
  {
    assert xs == [xs[0]] + xs[1..] && ys == [ys[0]] + ys[1..];
    assert multiset(xs[1..]) == multiset(xs) - multiset{xs[0]};
    assert multiset(ys[1..]) == multiset(ys) - multiset{ys[0]};
  }

  /** Sorted arrangements of the same untied elements are the same. */
  lemma {:induction false} SortedUnique<T(!new)>(less: (T, T) -> bool, xs: seq<T>, ys: seq<T>)
    requires Ordering(less) && Sorted(less, xs) && Sorted(less, ys) && Untied(less, xs)
    requires multiset(xs) == multiset(ys)
    ensures xs == ys
    decreases |xs|
  {
    assert |xs| == |multiset(xs)| == |multiset(ys)| == |ys|;
    if xs != [] {
      SameHead(less, xs, ys);
      SameTail(xs, ys);
      SortedUnique(less, xs[1..], ys[1..]);
      assert xs == [xs[0]] + xs[1..] && ys == [ys[0]] + ys[1..];
    }
  }

  /** Any way of sorting untied elements, from any arrangement of them, gives what Sort gives. */
  lemma SortIsTheSort<T(!new)>(less: (T, T) -> bool, xs: seq<T>, ys: seq<T>)
    requires Ordering(less) && Sorted(less, ys) && Untied(less, ys) && multiset(xs) == multiset(ys)
    ensures ys == Sort(less, xs)
  {
    SortSorts(less, xs);
    SortKeeps(less, xs);
    SortedUnique(less, ys, Sort(less, xs));
  }

  lemma UntiedArrangement<T(!new)>(less: (T, T) -> bool, xs: seq<T>, ys: seq<T>)
    requires Ordering(less) && Untied(less, xs) && multiset(xs) == multiset(ys)
    ensures Untied(less, ys)
  {
    forall i, j | 0 <= i < j < |ys|
      ensures less(ys[i], ys[j]) || less(ys[j], ys[i])
    {
      SameElements(xs, ys);
      if ys[i] == ys[j] {
        assert multiset(ys)[ys[i]] >= 2 by {
          assert ys == ys[..i] + [ys[i]] + ys[i + 1..j] + [ys[j]] + ys[j + 1..];
        }
        NoRepeats(less, xs, ys[i]);
      } else {
        assert ys[i] in xs && ys[j] in xs;
        var a :| 0 <= a < |xs| && xs[a] == ys[i];
        var b :| 0 <= b < |xs| && xs[b] == ys[j];
      }
    }
  }

  lemma {:induction false} NoRepeats<T(!new)>(less: (T, T) -> bool, xs: seq<T>, x: T)
    requires Ordering(less) && Untied(less, xs)
    ensures multiset(xs)[x] <= 1
    decreases |xs|
  {
    if xs != [] {
      assert xs == [xs[0]] + xs[1..];
      NoRepeats(less, xs[1..], x);
      assert xs[0] !in xs[1..] by {
        forall j | 1 <= j < |xs|
          ensures xs[j] != xs[0]
        {
          assert less(xs[0], xs[j]) || less(xs[j], xs[0]);
        }
      }
    }
  }

  ghost predicate DistinctBy<T>(key: T -> Str, xs: seq<T>) {
    forall i, j :: 0 <= i < j < |xs| ==> key(xs[i]) != key(xs[j])
  }

  lemma PassedFilter<T>(p: T -> bool, xs: seq<T>, x: T)
    requires x in Filter(p, xs)
    ensures x in xs && p(x)
  {
    FilterHas(p, xs);
  }

  lemma FilteredFrom<T>(p: T -> bool, xs: seq<T>, k: nat) returns (j: nat)
    requires k < |Filter(p, xs)|
    ensures j < |xs| && xs[j] == Filter(p, xs)[k] && p(xs[j])
  {
    PassedFilter(p, xs, Filter(p, xs)[k]);
    j :| 0 <= j < |xs| && xs[j] == Filter(p, xs)[k];
  }

  /** Filtering leaves the keys distinct among what passes. */
  lemma {:induction false} FilterDistinctBy<T>(key: T -> Str, p: T -> bool, xs: seq<T>)
    requires forall i, j :: 0 <= i < j < |xs| && p(xs[i]) && p(xs[j]) ==> key(xs[i]) != key(xs[j])
    ensures DistinctBy(key, Filter(p, xs))
  {
    if xs != [] {
      FilterDistinctBy(key, p, xs[1..]);
      var rest := Filter(p, xs[1..]);
      forall k | 0 <= k < |rest| && p(xs[0])
        ensures key(rest[k]) != key(xs[0])
      {
        var j := FilteredFrom(p, xs[1..], k);
        assert xs[j + 1] == rest[k];
      }
    }
  }

  // ----- Mapping every element to some elements

  function FlatMap<T, U>(f: T -> seq<U>, xs: seq<T>): seq<U> {
    if xs == [] then [] else f(xs[0]) + FlatMap(f, xs[1..])
  }

  lemma {:induction false} FlatMapSnoc<T, U>(f: T -> seq<U>, xs: seq<T>, x: T)
    ensures FlatMap(f, xs + [x]) == FlatMap(f, xs) + f(x)
  {
    var all := xs + [x];
    if xs == [] {
      assert all[1..] == [];
      assert FlatMap(f, all) == f(x) + [];
    } else {
      assert all[0] == xs[0] && all[1..] == xs[1..] + [x];
      FlatMapSnoc(f, xs[1..], x);
      Associate(f(xs[0]), FlatMap(f, xs[1..]), f(x));
    }
  }

  lemma OneElementMore<T, U>(f: T -> seq<U>, xs: seq<T>, i: nat)
    requires i < |xs|
    ensures FlatMap(f, xs[..i + 1]) == FlatMap(f, xs[..i]) + f(xs[i])
  {
    FlatMapSnoc(f, xs[..i], xs[i]);
    assert xs[..i + 1] == xs[..i] + [xs[i]];
  }

  lemma {:induction false} FlatMapHas<T, U>(f: T -> seq<U>, xs: seq<T>, y: U)
    ensures y in FlatMap(f, xs) <==> exists x :: x in xs && y in f(x)
  {
    if xs != [] {
      FlatMapHas(f, xs[1..], y);
      if y in f(xs[0]) {
        assert xs[0] in xs;
      } else if y in FlatMap(f, xs[1..]) {
        var x :| x in xs[1..] && y in f(x);
        assert x in xs;
      }
    }
  }

  lemma {:induction false} FlatMapCount<T, U>(f: T -> seq<U>, xs: seq<T>, i: nat, y: U)
    requires i < |xs|
    ensures multiset(FlatMap(f, xs))[y] == multiset(f(xs[i]))[y] + multiset(FlatMap(f, xs[..i] + xs[i + 1..]))[y]
    decreases |xs|
  {
    if i == 0 {
      assert xs[..0] + xs[1..] == xs[1..];
    } else {
      var less := xs[..i] + xs[i + 1..];
      assert less[1..] == xs[1..][..i - 1] + xs[1..][i..] && less[0] == xs[0];
      FlatMapCount(f, xs[1..], i - 1, y);
    }
  }

  lemma WithoutAt<T>(xs: seq<T>, i: nat)
    requires i < |xs|
    ensures multiset(xs[..i] + xs[i + 1..]) == multiset(xs) - multiset{xs[i]}
  {
    assert xs == xs[..i] + [xs[i]] + xs[i + 1..];
  }

  /** The results, as a multiset, depend on the multiset of the elements only. */
  lemma {:induction false} FlatMapArrangement<T, U>(f: T -> seq<U>, xs: seq<T>, xs': seq<T>, y: U)
    requires multiset(xs) == multiset(xs')
    ensures multiset(FlatMap(f, xs))[y] == multiset(FlatMap(f, xs'))[y]
    decreases |xs|
  {
    assert |xs| == |multiset(xs)| == |multiset(xs')| == |xs'|;
    if xs != [] {
      var i := Elsewhere(xs, xs');
      FlatMapCount(f, xs', i, y);
      FlatMapArrangement(f, xs[1..], xs'[..i] + xs'[i + 1..], y);
    }
  }

  /** The first element has its place in the other arrangement; without it the rests are arrangements again. */
  lemma Elsewhere<T>(xs: seq<T>, xs': seq<T>) returns (i: nat)
    requires multiset(xs) == multiset(xs') && xs != []
    ensures i < |xs'| && xs'[i] == xs[0]
    ensures multiset(xs[1..]) == multiset(xs'[..i] + xs'[i + 1..])
  {
    SameElements(xs, xs');
    assert xs[0] in xs';
    i :| 0 <= i < |xs'| && xs'[i] == xs[0];
    WithoutAt(xs', i);
    WithoutAt(xs, 0);
    assert xs[..0] + xs[1..] == xs[1..];
  }

  /** No two results share a key, if no element yields two and different elements yield different ones. */
  lemma {:induction false} FlatMapKeys<T, U>(f: T -> seq<U>, xs: seq<T>, key: U -> Str, tag: T -> Str)
    requires DistinctBy(tag, xs)
    requires forall x :: x in xs ==> |f(x)| <= 1 && forall y :: y in f(x) ==> key(y) == tag(x)
    ensures DistinctBy(key, FlatMap(f, xs))
    decreases |xs|
  {
    if xs != [] {
      var rest := FlatMap(f, xs[1..]);
      FlatMapKeys(f, xs[1..], key, tag);
      forall k | 0 <= k < |rest|
        ensures key(rest[k]) != tag(xs[0])
      {
        FlatMapHas(f, xs[1..], rest[k]);
        var x :| x in xs[1..] && rest[k] in f(x);
        var j :| 1 <= j < |xs| && xs[j] == x;
      }
      assert xs[0] in xs;
    }
  }

  // ----- The order of strings

  predicate Less(a: Str, b: Str) {
    b != [] && (a == [] || a[0] < b[0] || (a[0] == b[0] && Less(a[1..], b[1..])))
  }

  lemma {:induction false} LessTotal(a: Str, b: Str)
    ensures a == b || Less(a, b) || Less(b, a)
    ensures !(Less(a, b) && Less(b, a))
    ensures a == b ==> !Less(a, b)
  {
    if a != [] && b != [] {
      LessTotal(a[1..], b[1..]);
      assert a == [a[0]] + a[1..] && b == [b[0]] + b[1..];
    }
  }

  lemma {:induction false} LessTransitive(a: Str, b: Str, c: Str)
    requires Less(a, b) && Less(b, c)
    ensures Less(a, c)
  {
    if a != [] && a[0] == b[0] && b[0] == c[0] {
      LessTransitive(a[1..], b[1..], c[1..]);
    }
  }

  /** Ordering things by a string of theirs. */
  function ByKey<T>(key: T -> Str): (T, T) -> bool {
    (x: T, y: T) => Less(key(x), key(y))
  }

  lemma ByKeyOrdering<T(!new)>(key: T -> Str)
    ensures Ordering(ByKey(key))
  {
    var less := ByKey(key);
    forall x
      ensures !less(x, x)
    {
      LessTotal(key(x), key(x));
    }
    forall x, y, z | less(x, y) && less(y, z)
      ensures less(x, z)
    {
      LessTransitive(key(x), key(y), key(z));
    }
    forall x, y, z | less(x, z)
      ensures less(x, y) || less(y, z)
    {
      LessTotal(key(x), key(y));
      if !less(x, y) && key(x) != key(y) {
        LessTransitive(key(y), key(x), key(z));
      }
    }
  }

  lemma ByKeyUntied<T(!new)>(key: T -> Str, xs: seq<T>)
    requires DistinctBy(key, xs)
    ensures Untied(ByKey(key), xs)
  {
    forall i, j | 0 <= i < j < |xs|
      ensures ByKey(key)(xs[i], xs[j]) || ByKey(key)(xs[j], xs[i])
    {
      LessTotal(key(xs[i]), key(xs[j]));
    }
  }

  // ----- What the order is

  /** a ends at i, or has the smaller byte there, and up to there it is like b. */
  ghost predicate SmallerAt(a: Str, b: Str, i: nat) {
    i <= |a| && i < |b| && a[..i] == b[..i] && (i < |a| ==> a[i] < b[i])
  }

  /** a is a proper prefix of b, or has the smaller byte where they differ first. */
  ghost predicate ComesBefore(a: Str, b: Str) {
    exists i :: SmallerAt(a, b, i)
  }

  lemma SmallerInTail(a: Str, b: Str, i: nat)
    requires a != [] && b != []
    ensures SmallerAt(a, b, i + 1) <==> a[0] == b[0] && SmallerAt(a[1..], b[1..], i)
  {
    if i + 1 <= |a| && i + 1 < |b| {
      assert a[..i + 1] == [a[0]] + a[1..][..i] && b[..i + 1] == [b[0]] + b[1..][..i];
      assert a[..i + 1] == b[..i + 1] ==> a[..i + 1][1..] == b[..i + 1][1..] && a[..i + 1][0] == b[..i + 1][0];
    }
  }

  /** The order of strings is that of their first difference. */
  lemma {:induction false} LessMeans(a: Str, b: Str)
    ensures Less(a, b) <==> ComesBefore(a, b)
    decreases |a|
  {
    if a == [] || b == [] {
      assert b != [] ==> SmallerAt(a, b, 0);
    } else {
      LessMeans(a[1..], b[1..]);
      if Less(a, b) {
        if a[0] < b[0] {
          assert SmallerAt(a, b, 0);
        } else {
          var i: nat :| SmallerAt(a[1..], b[1..], i);
          SmallerInTail(a, b, i);
        }
      }
      if i: nat :| SmallerAt(a, b, i) {
        if i > 0 {
          SmallerInTail(a, b, i - 1);
        }
      }
    }
  }

  /** Each comes before all that follow it. */
  ghost predicate Ascending(names: seq<Str>) {
    forall i, j :: 0 <= i < j < |names| ==> ComesBefore(names[i], names[j])
  }

  /** Sorting by distinct keys makes them ascend. */
  lemma SortAscends<T(!new)>(key: T -> Str, xs: seq<T>)
    requires DistinctBy(key, xs)
    ensures Ascending(Map(key, Sort(ByKey(key), xs)))
  {
    var less := ByKey(key);
    var sorted := Sort(less, xs);
    ByKeyOrdering(key);
    ByKeyUntied(key, xs);
    SortKeeps(less, xs);
    SortSorts(less, xs);
    UntiedArrangement(less, xs, sorted);
    forall i, j | 0 <= i < j < |sorted|
      ensures ComesBefore(Map(key, sorted)[i], Map(key, sorted)[j])
    {
      assert less(sorted[i], sorted[j]);
      LessMeans(key(sorted[i]), key(sorted[j]));
    }
  }

  /** The same things, in the order of their keys, are the same list. */
  lemma {:induction false} AscendingUnique<T>(key: T -> Str, xs: seq<T>, ys: seq<T>)
    requires Ascending(Map(key, xs)) && Ascending(Map(key, ys)) && forall x :: x in xs <==> x in ys
    ensures xs == ys
    decreases |xs|
  {
    SomeInBoth(xs, ys);
    SomeInBoth(ys, xs);
    if xs != [] {
      AscendingHead(key, xs, ys);
      AscendingTail(key, xs);
      AscendingTail(key, ys);
      AscendingUnique(key, xs[1..], ys[1..]);
      assert xs == [xs[0]] + xs[1..] && ys == [ys[0]] + ys[1..];
    }
  }

  lemma SomeInBoth<T>(xs: seq<T>, ys: seq<T>)
    requires forall x :: x in xs ==> x in ys
    ensures xs != [] ==> ys != []
  {
    if xs != [] {
      assert xs[0] in ys;
    }
  }

  lemma NotBeforeItself(a: Str, b: Str)
    requires ComesBefore(a, b)
    ensures a != b && !ComesBefore(b, a)
  {
    LessMeans(a, b);
    LessMeans(b, a);
    LessTotal(a, b);
  }

  lemma AscendingHead<T>(key: T -> Str, xs: seq<T>, ys: seq<T>)
    requires Ascending(Map(key, xs)) && Ascending(Map(key, ys)) && xs != [] && ys != []
    requires forall x :: x in xs <==> x in ys
    ensures xs[0] == ys[0]
  {
    assert xs[0] in ys && ys[0] in xs;
    var i :| 0 <= i < |ys| && ys[i] == xs[0];
    var j :| 0 <= j < |xs| && xs[j] == ys[0];
    if i > 0 && j > 0 {
      assert ComesBefore(Map(key, ys)[0], Map(key, ys)[i]);
      assert ComesBefore(Map(key, xs)[0], Map(key, xs)[j]);
      NotBeforeItself(key(ys[0]), key(xs[0]));
    }
  }

  /** The rest ascends too, and holds all but the head. */
  lemma AscendingTail<T>(key: T -> Str, xs: seq<T>)
    requires xs != [] && Ascending(Map(key, xs))
    ensures Ascending(Map(key, xs[1..])) && forall x :: x in xs[1..] <==> x in xs && x != xs[0]
  {
    var names, rest := Map(key, xs), Map(key, xs[1..]);
    forall i, j | 0 <= i < j < |rest|
      ensures ComesBefore(rest[i], rest[j])
    {
      assert rest[i] == names[i + 1] && rest[j] == names[j + 1];
    }
    forall k | 1 <= k < |xs|
      ensures xs[k] != xs[0]
    {
      NotBeforeItself(names[0], names[k]);
    }
    assert forall x :: x in xs[1..] <==> exists k :: 1 <= k < |xs| && xs[k] == x;
  }
}
