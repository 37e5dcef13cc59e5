/** Sublists picked by a test, in order, and joined lists. */
module Filtering {

  lemma Regroup<T>(a: seq<T>, b: seq<T>, c: seq<T>)
    ensures (a + b) + c == a + (b + c)
  {
  }

  function Filter<T>(keep: T -> bool, xs: seq<T>): seq<T>
  {
    if xs == [] then []
    else Filter(keep, xs[..|xs| - 1]) + if keep(xs[|xs| - 1]) then [xs[|xs| - 1]] else []
  }

  lemma FilterSnoc<T>(keep: T -> bool, xs: seq<T>, x: T)
    ensures Filter(keep, xs + [x]) == if keep(x) then Filter(keep, xs) + [x] else Filter(keep, xs)
  {
    assert (xs + [x])[..|xs|] == xs;
    assert Filter(keep, xs) + [] == Filter(keep, xs);
  }

  lemma {:induction false} FilterMembers<T>(keep: T -> bool, xs: seq<T>, x: T)
    ensures x in Filter(keep, xs) <==> x in xs && keep(x)
  {
    if xs != [] {
      FilterMembers(keep, xs[..|xs| - 1], x);
      assert xs == xs[..|xs| - 1] + [xs[|xs| - 1]];
    }
  }

  lemma {:induction false} FilterShrinks<T>(keep: T -> bool, xs: seq<T>)
    ensures |Filter(keep, xs)| <= |xs|
    ensures (exists x :: x in xs && !keep(x)) ==> |Filter(keep, xs)| < |xs|
  {
    if xs != [] {
      FilterShrinks(keep, xs[..|xs| - 1]);
      assert xs == xs[..|xs| - 1] + [xs[|xs| - 1]];
    }
  }

  /** Filtering twice is filtering by both tests. */
  lemma {:induction false} FilterTwice<T>(both: T -> bool, first: T -> bool, second: T -> bool, xs: seq<T>)
    requires forall x :: x in xs ==> (both(x) <==> first(x) && second(x))
    ensures Filter(both, xs) == Filter(second, Filter(first, xs))
  {
    if xs != [] {
      var init, last := xs[..|xs| - 1], xs[|xs| - 1];
      assert xs == init + [last];
      FilterTwice(both, first, second, init);
      FilterSnoc(both, init, last);
      FilterSnoc(first, init, last);
      FilterSnoc(second, Filter(first, init), last);
    }
  }

  /** A test and its complement split the list without losing or doubling anything. */
  lemma {:induction false} FilterSplits<T>(keep: T -> bool, drop: T -> bool, xs: seq<T>)
    requires forall x :: x in xs ==> keep(x) != drop(x)
    ensures multiset(Filter(keep, xs)) + multiset(Filter(drop, xs)) == multiset(xs)
  {
    if xs != [] {
      var init, last := xs[..|xs| - 1], xs[|xs| - 1];
      assert xs == init + [last];
      FilterSplits(keep, drop, init);
      FilterSnoc(keep, init, last);
      FilterSnoc(drop, init, last);
    }
  }

  lemma {:induction false} FilterConcat<T>(keep: T -> bool, xs: seq<T>, ys: seq<T>)
    ensures Filter(keep, xs + ys) == Filter(keep, xs) + Filter(keep, ys)
  {
    if ys == [] {
      assert xs + ys == xs;
    } else {
      var init, last := ys[..|ys| - 1], ys[|ys| - 1];
      assert xs + ys == (xs + init) + [last];
      FilterConcat(keep, xs, init);
      FilterSnoc(keep, xs + init, last);
    }
  }

  lemma {:induction false} FilterAll<T>(keep: T -> bool, xs: seq<T>)
    requires forall x :: x in xs ==> keep(x)
    ensures Filter(keep, xs) == xs
  {
    if xs != [] {
      var init, last := xs[..|xs| - 1], xs[|xs| - 1];
      assert xs == init + [last];
      assert last in xs;
      FilterAll(keep, init);
    }
  }

  lemma {:induction false} FilterNone<T>(keep: T -> bool, xs: seq<T>)
    requires forall x :: x in xs ==> !keep(x)
    ensures Filter(keep, xs) == []
  {
    if xs != [] {
      FilterNone(keep, xs[..|xs| - 1]);
      assert xs[|xs| - 1] in xs;
    }
  }
}
