/**
 Sorting as the harness uses it: only "ordered permutation of the input" is ever relied on, so
 which algorithm Go's library runs, and whether it is stable, does not matter to any result here.
 */
module Sorting {

  ghost predicate TotalPreorder<T(!new)>(le: (T, T) -> bool)
  {
    && (forall a, b :: le(a, b) || le(b, a))
    && (forall a, b, c :: le(a, b) && le(b, c) ==> le(a, c))
  }

  ghost predicate Ordered<T>(le: (T, T) -> bool, xs: seq<T>)
  {
    forall i, j :: 0 <= i < j < |xs| ==> le(xs[i], xs[j])
  }

  function Insert<T>(le: (T, T) -> bool, x: T, xs: seq<T>): (r: seq<T>)
    ensures multiset(r) == multiset(xs) + multiset{x}
  {
    if xs == [] then [x]
    else if le(x, xs[0]) then [x] + xs
    else
      assert xs == [xs[0]] + xs[1..];
      [xs[0]] + Insert(le, x, xs[1..])
  }

  function Sort<T>(le: (T, T) -> bool, xs: seq<T>): (r: seq<T>)
    ensures multiset(r) == multiset(xs)
  {
    if xs == [] then []
    else
      assert xs == [xs[0]] + xs[1..];
      Insert(le, xs[0], Sort(le, xs[1..]))
  }

  lemma SameMembers<T>(xs: seq<T>, ys: seq<T>)
    requires multiset(xs) == multiset(ys)
    ensures |xs| == |ys|
    ensures forall x :: x in xs <==> x in ys
  {
    assert |multiset(xs)| == |xs| && |multiset(ys)| == |ys|;
    assert forall x :: x in xs <==> x in multiset(xs);
    assert forall x :: x in ys <==> x in multiset(ys);
  }

  lemma {:induction false} InsertOrdered<T(!new)>(le: (T, T) -> bool, x: T, xs: seq<T>)
    requires TotalPreorder(le) && Ordered(le, xs)
    ensures Ordered(le, Insert(le, x, xs))
  {
    if xs != [] && !le(x, xs[0]) {
      var rest := Insert(le, x, xs[1..]);
      InsertOrdered(le, x, xs[1..]);
      assert multiset(rest) == multiset(xs[1..] + [x]);
      SameMembers(rest, xs[1..] + [x]);
      assert forall y :: y in rest ==> le(xs[0], y);
    }
  }

  lemma {:induction false} SortOrdered<T(!new)>(le: (T, T) -> bool, xs: seq<T>)
    requires TotalPreorder(le)
    ensures Ordered(le, Sort(le, xs))
  {
    if xs != [] {
      SortOrdered(le, xs[1..]);
      InsertOrdered(le, xs[0], Sort(le, xs[1..]));
    }
  }

  lemma LeastFirst<T>(le: (T, T) -> bool, xs: seq<T>, y: T)
    requires Ordered(le, xs) && y in xs
    ensures y == xs[0] || le(xs[0], y)
  {
    var i :| 0 <= i < |xs| && xs[i] == y;
    assert i == 0 || le(xs[0], xs[i]);
  }

  ghost predicate Antisymmetric<T(!new)>(le: (T, T) -> bool)
  {
    forall a, b :: le(a, b) && le(b, a) ==> a == b
  }

  /** With an antisymmetric order there is one ordered permutation, whatever algorithm finds it. */
  lemma {:induction false} OrderedUnique<T(!new)>(le: (T, T) -> bool, xs: seq<T>, ys: seq<T>)
    requires Antisymmetric(le)
    requires Ordered(le, xs) && Ordered(le, ys) && multiset(xs) == multiset(ys)
    ensures xs == ys
  {
    SameMembers(xs, ys);
    if xs != [] {
      assert xs[0] in ys && ys[0] in xs;
      LeastFirst(le, xs, ys[0]);
      LeastFirst(le, ys, xs[0]);
      assert xs[0] == ys[0];
      TailMembers(xs, ys);
      OrderedUnique(le, xs[1..], ys[1..]);
      assert xs == [xs[0]] + xs[1..] && ys == [ys[0]] + ys[1..];
    }
  }

  lemma TailMembers<T>(xs: seq<T>, ys: seq<T>)
    requires xs != [] && ys != [] && xs[0] == ys[0] && multiset(xs) == multiset(ys)
    ensures multiset(xs[1..]) == multiset(ys[1..])
  {
    assert xs == [xs[0]] + xs[1..] && ys == [ys[0]] + ys[1..];
    assert multiset(xs[1..]) == multiset(xs) - multiset{xs[0]};
    assert multiset(ys[1..]) == multiset(ys) - multiset{ys[0]};
  }

  // ---- sets listed in ascending order -------------------------------------

  ghost predicate StrictOrder<T(!new)>(lt: (T, T) -> bool)
  {
    && (forall a :: !lt(a, a))
    && (forall a, b, c :: lt(a, b) && lt(b, c) ==> lt(a, c))
    && (forall a, b :: a == b || lt(a, b) || lt(b, a))
  }

  /** `xs` lists the members of `s`, each once, smallest first. */
  ghost predicate Ascending<T(!new)>(lt: (T, T) -> bool, s: set<T>, xs: seq<T>)
  {
    && (forall i, j :: 0 <= i < j < |xs| ==> lt(xs[i], xs[j]))
    && (forall x :: x in xs <==> x in s)
  }

  function NotGreater<T>(lt: (T, T) -> bool): (T, T) -> bool
  {
    (a, b) => !lt(b, a)
  }

  lemma NotGreaterPreorder<T(!new)>(lt: (T, T) -> bool)
    requires StrictOrder(lt)
    ensures TotalPreorder(NotGreater(lt))
  {
    var le := NotGreater(lt);
    forall a, b, c | le(a, b) && le(b, c) ensures le(a, c) {
      assert a == b || lt(a, b);
    }
    forall a, b ensures le(a, b) || le(b, a) {
      assert lt(a, b) && lt(b, a) ==> lt(a, a);
    }
  }

  ghost predicate Distinct<T>(xs: seq<T>)
  {
    forall i, j :: 0 <= i < j < |xs| ==> xs[i] != xs[j]
  }

  lemma {:induction false} DistinctOnce<T>(xs: seq<T>)
    ensures Distinct(xs) <==> forall x :: x in xs ==> multiset(xs)[x] == 1
  {
    if xs != [] {
      var rest := xs[1..];
      DistinctOnce(rest);
      assert xs == [xs[0]] + rest;
      assert multiset(xs) == multiset{xs[0]} + multiset(rest);
      assert Distinct(xs) <==> xs[0] !in rest && Distinct(rest) by {
        assert forall j :: 0 <= j < |rest| ==> rest[j] == xs[j + 1];
      }
      if forall x :: x in xs ==> multiset(xs)[x] == 1 {
        assert multiset(xs)[xs[0]] == 1;
        assert xs[0] !in rest;
        assert forall x :: x in rest ==> multiset(xs)[x] == multiset(rest)[x];
      }
    }
  }

  lemma SortAscends<T(!new)>(lt: (T, T) -> bool, xs: seq<T>)
    requires StrictOrder(lt) && Distinct(xs)
    ensures Ascending(lt, (set x | x in xs), Sort(NotGreater(lt), xs))
  {
    var ys := Sort(NotGreater(lt), xs);
    NotGreaterPreorder(lt);
    SortOrdered(NotGreater(lt), xs);
    SameMembers(xs, ys);
    DistinctOnce(xs);
    DistinctOnce(ys);
    forall i, j | 0 <= i < j < |ys| ensures lt(ys[i], ys[j]) {
      assert NotGreater(lt)(ys[i], ys[j]);
    }
  }

  lemma {:induction false} AscendingUnique<T(!new)>(lt: (T, T) -> bool, s: set<T>, xs: seq<T>, ys: seq<T>)
    requires StrictOrder(lt) && Ascending(lt, s, xs) && Ascending(lt, s, ys)
    ensures xs == ys
    decreases |xs|
  {
    AscendingLength(lt, s, xs);
    AscendingLength(lt, s, ys);
    if xs != [] {
      AscendingHead(lt, s, xs, ys[0]);
      AscendingHead(lt, s, ys, xs[0]);
      assert xs[0] == ys[0];
      AscendingTail(lt, s, xs);
      AscendingTail(lt, s, ys);
      AscendingUnique(lt, s - {xs[0]}, xs[1..], ys[1..]);
      assert xs == [xs[0]] + xs[1..] && ys == [ys[0]] + ys[1..];
    }
  }

  lemma AscendingHead<T(!new)>(lt: (T, T) -> bool, s: set<T>, xs: seq<T>, y: T)
    requires Ascending(lt, s, xs) && y in s
    ensures xs != [] && (y == xs[0] || lt(xs[0], y))
  {
    assert y in xs;
  }

  lemma AscendingTail<T(!new)>(lt: (T, T) -> bool, s: set<T>, xs: seq<T>)
    requires StrictOrder(lt) && Ascending(lt, s, xs) && xs != []
    ensures Ascending(lt, s - {xs[0]}, xs[1..])
  {
    var rest := xs[1..];
    assert xs == [xs[0]] + rest;
    assert forall j :: 0 <= j < |rest| ==> rest[j] == xs[j + 1] && lt(xs[0], xs[j + 1]);
    assert xs[0] !in rest;
  }

  lemma {:induction false} AscendingLength<T(!new)>(lt: (T, T) -> bool, s: set<T>, xs: seq<T>)
    requires StrictOrder(lt) && Ascending(lt, s, xs)
    ensures |xs| == |s|
    decreases |xs|
  {
    if xs == [] {
      assert s == {};
    } else {
      assert xs[0] in s;
      AscendingTail(lt, s, xs);
      AscendingLength(lt, s - {xs[0]}, xs[1..]);
    }
  }

  /** The members of a set in ascending order. */
  ghost function Listing<T(!new)>(lt: (T, T) -> bool, s: set<T>): (xs: seq<T>)
    requires StrictOrder(lt)
    ensures Ascending(lt, s, xs)
  {
    var xs := Enumeration(s);
    SortAscends(lt, xs);
    assert s == (set x | x in xs);
    Sort(NotGreater(lt), xs)
  }

  ghost function Enumeration<T(!new)>(s: set<T>): (xs: seq<T>)
    ensures Distinct(xs)
    ensures forall x :: x in xs <==> x in s
  {
    if s == {} then []
    else
      var x :| x in s;
      [x] + Enumeration(s - {x})
  }

  /** Collecting a Go map's keys in whatever order it iterates, then sorting them. */
  method AscendingOrder<T(!new, ==)>(lt: (T, T) -> bool, keys: set<T>) returns (xs: seq<T>)
    requires StrictOrder(lt)
    ensures xs == Listing(lt, keys)
  {
    xs := [];
    var left := keys;
    while left != {}
      invariant left <= keys && Distinct(xs)
      invariant forall x :: x in xs <==> x in keys - left
      decreases left
    {
      var x :| x in left;
      assert x !in xs;
      xs := xs + [x];
      left := left - {x};
    }
    SortAscends(lt, xs);
    assert keys == (set x | x in xs);
    xs := Sort(NotGreater(lt), xs);
    AscendingUnique(lt, keys, xs, Listing(lt, keys));
  }
}
