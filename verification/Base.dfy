/** Vocabulary shared by every part of the model. */
module Base {

  /** One byte.  The engine's strings are sequences of bytes too. */
  type byte = b: int | 0 <= b < 256

  type Bytes = seq<byte>

  type Str = seq<byte>

  /** The unsigned 32-bit integers, on which arithmetic wraps around. */
  type u32 = x: int | 0 <= x < 0x1_0000_0000

  type int64 = x: int | -0x8000_0000_0000_0000 <= x < 0x8000_0000_0000_0000

  datatype Option<+T> = None | Some(value: T)

  datatype Result<+T, +E> = Ok(value: T) | Err(error: E)

  /** All the pieces, one after the other. */
  function Concat<T>(pieces: seq<seq<T>>): seq<T> {
    if pieces == [] then [] else pieces[0] + Concat(pieces[1..])
  }

  lemma {:induction false} ConcatAppend<T>(a: seq<seq<T>>, b: seq<seq<T>>)
    ensures Concat(a + b) == Concat(a) + Concat(b)
  {
    if a == [] {
      assert a + b == b;
    } else {
      assert (a + b)[1..] == a[1..] + b;
      ConcatAppend(a[1..], b);
    }
  }

  lemma Associate<T>(a: seq<T>, b: seq<T>, c: seq<T>)
    ensures a + (b + c) == a + b + c
  {
  }

  lemma Regroup<T>(a: seq<T>, b: seq<T>, c: seq<T>, d: seq<T>)
    ensures a + b + c + d == a + (b + c + d) == a + (b + (c + d))
    ensures c == [] ==> a + b + c == a + b
  {
  }

  lemma SplitLast<T>(xs: seq<T>)
    requires xs != []
    ensures xs == xs[..|xs| - 1] + [xs[|xs| - 1]]
  {
  }

  lemma ConcatOne<T>(a: seq<T>)
    ensures Concat([a]) == a
  {
    assert Concat([a]) == a + Concat([]);
  }

  /** No element occurs twice. */
  ghost predicate Distinct<T(!new)>(xs: seq<T>) {
    forall i, j :: 0 <= i < j < |xs| ==> xs[i] != xs[j]
  }

  /** The elements of a set, in whatever order they come. */
  method InAnyOrder(s: set<Str>) returns (xs: seq<Str>)
    ensures forall x :: x in xs <==> x in s
    ensures Distinct(xs)
  {
    xs := [];
    var rest := s;
    while rest != {}
      invariant forall x :: x in s <==> x in xs || x in rest
      invariant forall x :: x in xs ==> x !in rest
      invariant Distinct(xs)
      decreases rest
    {
      var x :| x in rest;
      xs, rest := xs + [x], rest - {x};
    }
  }

  lemma SameMap<K, V>(a: map<K, V>, b: map<K, V>)
    requires forall k :: k in a ==> k in b && a[k] == b[k]
    requires forall k :: k in b ==> k in a
    ensures a == b
  {
  }

  function Map<T, U>(f: T -> U, xs: seq<T>): (ys: seq<U>)
    ensures |ys| == |xs|
    ensures forall i :: 0 <= i < |xs| ==> ys[i] == f(xs[i])
  {
    seq(|xs|, i requires 0 <= i < |xs| => f(xs[i]))
  }

  function Filter<T>(p: T -> bool, xs: seq<T>): seq<T> {
    if xs == [] then [] else (if p(xs[0]) then [xs[0]] else []) + Filter(p, xs[1..])
  }

  lemma {:induction false} FilterHas<T>(p: T -> bool, xs: seq<T>)
    ensures forall x :: x in Filter(p, xs) <==> x in xs && p(x)
    ensures |Filter(p, xs)| <= |xs|
  {
    if xs != [] {
      FilterHas(p, xs[1..]);
    }
  }

  lemma {:induction false} FilterSnoc<T>(p: T -> bool, xs: seq<T>, x: T)
    ensures Filter(p, xs + [x]) == Filter(p, xs) + (if p(x) then [x] else [])
  {
    var all, last := xs + [x], if p(x) then [x] else [];
    if xs == [] {
      assert all[1..] == [];
      assert Filter(p, all) == last + [];
    } else {
      assert all[0] == xs[0] && all[1..] == xs[1..] + [x];
      FilterSnoc(p, xs[1..], x);
      Associate(if p(xs[0]) then [xs[0]] else [], Filter(p, xs[1..]), last);
    }
  }

  lemma {:induction false} FilterCount<T>(p: T -> bool, xs: seq<T>, x: T)
    ensures multiset(Filter(p, xs))[x] == if p(x) then multiset(xs)[x] else 0
  {
    if xs != [] {
      assert xs == [xs[0]] + xs[1..];
      FilterCount(p, xs[1..], x);
    }
  }
}
