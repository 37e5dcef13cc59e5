/**
 Lists that are really finite maps. Reports carry verdicts, measurements and executions as lists;
 merging folds them through a hash map keyed by a NUL-joined string and sorts the result by fields.
 `Table` is the map a list denotes, `Dedupe` the one list that denotes it in report order.
 */
module Keyed {
  import opened Text
  import opened Sorting

  /** How one record type is identified (`key`, a map key) and ordered (`rank`, the fields compared). */
  datatype Index<!T> = Index(key: T -> string, rank: T -> seq<string>)

  /** Records that compare equal have the same key: the key is built from the compared fields. */
  ghost predicate Coherent<T(!new)>(ix: Index<T>)
  {
    forall a, b :: ix.rank(a) == ix.rank(b) ==> ix.key(a) == ix.key(b)
  }

  /** The map a list denotes: a later record replaces an earlier one with its key. */
  function Table<T, K>(key: T -> K, xs: seq<T>): map<K, T>
  {
    if xs == [] then map[]
    else
      var last := xs[|xs| - 1];
      Table(key, xs[..|xs| - 1])[key(last) := last]
  }

  lemma {:induction false} TableConcat<T, K>(key: T -> K, a: seq<T>, b: seq<T>)
    ensures Table(key, a + b) == Table(key, a) + Table(key, b)
  {
    if b == [] {
      assert a + b == a;
    } else {
      assert (a + b)[..|a + b| - 1] == a + b[..|b| - 1];
      TableConcat(key, a, b[..|b| - 1]);
    }
  }

  lemma TableCons<T, K>(key: T -> K, x: T, xs: seq<T>)
    ensures Table(key, [x] + xs) == map[key(x) := x] + Table(key, xs)
  {
    TableConcat(key, [x], xs);
    assert [x][..0] == [];
  }

  lemma {:induction false} TableMembers<T, K(!new)>(key: T -> K, xs: seq<T>)
    ensures forall k :: k in Table(key, xs) ==> Table(key, xs)[k] in xs && key(Table(key, xs)[k]) == k
    ensures forall x :: x in xs ==> key(x) in Table(key, xs)
  {
    if xs != [] {
      TableMembers(key, xs[..|xs| - 1]);
      assert xs == xs[..|xs| - 1] + [xs[|xs| - 1]];
    }
  }

  /** Nothing listed after `x` has its key. */
  ghost predicate IsLast<T, K>(key: T -> K, xs: seq<T>, x: T)
  {
    exists i :: 0 <= i < |xs| && xs[i] == x && forall j :: i < j < |xs| ==> key(xs[j]) != key(x)
  }

  lemma {:induction false} TableHoldsLast<T, K(!new)>(key: T -> K, xs: seq<T>, x: T)
    ensures key(x) in Table(key, xs) && Table(key, xs)[key(x)] == x <==> IsLast(key, xs, x)
  {
    if xs != [] {
      var init, last := xs[..|xs| - 1], xs[|xs| - 1];
      assert xs == init + [last];
      TableHoldsLast(key, init, x);
      if key(last) == key(x) {
        assert last == x ==> xs[|init|] == x;
      } else if IsLast(key, init, x) {
        var i :| 0 <= i < |init| && init[i] == x && forall j :: i < j < |init| ==> key(init[j]) != key(x);
        assert xs[i] == x;
      }
    }
  }

  ghost predicate DistinctKeys<T>(key: T -> string, xs: seq<T>)
  {
    forall i, j :: 0 <= i < j < |xs| ==> key(xs[i]) != key(xs[j])
  }

  /** `xs` holds exactly the records of `m`, each once. */
  ghost predicate Enumerates<T>(key: T -> string, m: map<string, T>, xs: seq<T>)
  {
    && DistinctKeys(key, xs)
    && (forall i :: 0 <= i < |xs| ==> key(xs[i]) in m && m[key(xs[i])] == xs[i])
    && (forall k :: k in m ==> m[k] in xs && key(m[k]) == k)
  }

  ghost predicate StrictlyRanked<T>(rank: T -> seq<string>, xs: seq<T>)
  {
    forall i, j :: 0 <= i < j < |xs| ==> RowLess(rank(xs[i]), rank(xs[j]))
  }

  /** `xs` is the report-order listing of `m`. */
  ghost predicate Lists<T>(ix: Index<T>, m: map<string, T>, xs: seq<T>)
  {
    Enumerates(ix.key, m, xs) && StrictlyRanked(ix.rank, xs)
  }

  function NotAfter<T>(ix: Index<T>): (T, T) -> bool
  {
    (a, b) => !RowLess(ix.rank(b), ix.rank(a))
  }

  lemma NotAfterPreorder<T(!new)>(ix: Index<T>)
    ensures TotalPreorder(NotAfter(ix))
  {
    var le := NotAfter(ix);
    forall a, b ensures le(a, b) || le(b, a) {
      if !le(a, b) && !le(b, a) {
        RowLessTransitive(ix.rank(a), ix.rank(b), ix.rank(a));
        RowLessIrreflexive(ix.rank(a));
      }
    }
    forall a, b, c | le(a, b) && le(b, c) ensures le(a, c) {
      RowLessTotal(ix.rank(a), ix.rank(b));
      if RowLess(ix.rank(c), ix.rank(a)) && RowLess(ix.rank(a), ix.rank(b)) {
        RowLessTransitive(ix.rank(c), ix.rank(a), ix.rank(b));
      }
    }
  }

  ghost function KeepLast<T>(key: T -> string, xs: seq<T>): seq<T>
  {
    if xs == [] then []
    else if exists y :: y in xs[1..] && key(y) == key(xs[0]) then KeepLast(key, xs[1..])
    else [xs[0]] + KeepLast(key, xs[1..])
  }

  /** One record per key, the last one given, in report order. */
  ghost function Dedupe<T>(ix: Index<T>, xs: seq<T>): seq<T>
  {
    Sort(NotAfter(ix), KeepLast(ix.key, xs))
  }

  lemma EnumeratesCons<T>(key: T -> string, m: map<string, T>, x: T, xs: seq<T>)
    requires Enumerates(key, m, xs) && key(x) !in m
    ensures Enumerates(key, map[key(x) := x] + m, [x] + xs)
  {
    assert forall y :: y in xs ==> y in [x] + xs;
    assert ([x] + xs)[0] == x;
  }

  lemma EnumeratesSnoc<T>(key: T -> string, m: map<string, T>, x: T, xs: seq<T>)
    requires Enumerates(key, m, xs) && key(x) !in m
    ensures Enumerates(key, m[key(x) := x], xs + [x])
  {
    assert forall y :: y in xs ==> y in xs + [x];
    assert (xs + [x])[|xs|] == x;
  }

  lemma KeepLastCons<T>(key: T -> string, x: T, xs: seq<T>)
    ensures KeepLast(key, [x] + xs)
         == if key(x) in Table(key, xs) then KeepLast(key, xs) else [x] + KeepLast(key, xs)
  {
    TableMembers(key, xs);
    assert ([x] + xs)[1..] == xs;
  }

  lemma {:induction false} EnumeratesMore<T>(key: T -> string, x: T, xs: seq<T>)
    requires Enumerates(key, Table(key, xs), KeepLast(key, xs))
    ensures Enumerates(key, Table(key, [x] + xs), KeepLast(key, [x] + xs))
  {
    KeepLastCons(key, x, xs);
    TableCons(key, x, xs);
    EnumeratesOneMore(key, Table(key, xs), x, KeepLast(key, xs), Table(key, [x] + xs), KeepLast(key, [x] + xs));
  }

  lemma EnumeratesOneMore<T>(key: T -> string, m: map<string, T>, x: T, xs: seq<T>, more: map<string, T>, listed: seq<T>)
    requires Enumerates(key, m, xs) && more == map[key(x) := x] + m
    requires listed == if key(x) in m then xs else [x] + xs
    ensures Enumerates(key, more, listed)
  {
    if key(x) in m {
      assert more == m;
    } else {
      EnumeratesCons(key, m, x, xs);
    }
  }

  lemma {:induction false} KeepLastEnumerates<T>(key: T -> string, xs: seq<T>)
    ensures Enumerates(key, Table(key, xs), KeepLast(key, xs))
  {
    if xs != [] {
      KeepLastEnumerates(key, xs[1..]);
      EnumeratesMore(key, xs[0], xs[1..]);
      assert xs == [xs[0]] + xs[1..];
    }
  }

  lemma DistinctKeysPermuted<T>(key: T -> string, xs: seq<T>, ys: seq<T>)
    requires DistinctKeys(key, xs) && multiset(xs) == multiset(ys)
    ensures DistinctKeys(key, ys)
  {
    SameMembers(xs, ys);
    forall i, j | 0 <= i < j < |ys| ensures key(ys[i]) != key(ys[j]) {
      assert ys[i] in xs && ys[j] in xs;
      if ys[i] == ys[j] {
        TwiceIn(ys, i, j);
        NotTwiceIn(key, xs, ys[i]);
      }
    }
  }

  lemma TwiceIn<T>(ys: seq<T>, i: int, j: int)
    requires 0 <= i < j < |ys| && ys[i] == ys[j]
    ensures multiset(ys)[ys[i]] >= 2
  {
    assert ys == ys[..j] + ys[j..];
    assert ys[i] in ys[..j] && ys[j] in ys[j..];
    assert multiset(ys) == multiset(ys[..j]) + multiset(ys[j..]);
  }

  lemma {:induction false} NotTwiceIn<T>(key: T -> string, xs: seq<T>, x: T)
    requires DistinctKeys(key, xs)
    ensures multiset(xs)[x] <= 1
  {
    if xs != [] {
      NotTwiceIn(key, xs[1..], x);
      assert xs == [xs[0]] + xs[1..];
      if x == xs[0] {
        assert forall j :: 1 <= j < |xs| ==> key(xs[j]) != key(x);
        assert x !in xs[1..];
      }
    }
  }

  lemma SortLists<T(!new)>(ix: Index<T>, m: map<string, T>, xs: seq<T>)
    requires Coherent(ix) && Enumerates(ix.key, m, xs)
    ensures Lists(ix, m, Sort(NotAfter(ix), xs))
  {
    var le := NotAfter(ix);
    var ys := Sort(le, xs);
    NotAfterPreorder(ix);
    SortOrdered(le, xs);
    DistinctKeysPermuted(ix.key, xs, ys);
    SameMembers(xs, ys);
    forall i | 0 <= i < |ys| ensures ix.key(ys[i]) in m && m[ix.key(ys[i])] == ys[i] {
      assert ys[i] in xs;
    }
    forall i, j | 0 <= i < j < |ys| ensures RowLess(ix.rank(ys[i]), ix.rank(ys[j])) {
      assert le(ys[i], ys[j]);
      RowLessTotal(ix.rank(ys[i]), ix.rank(ys[j]));
    }
  }

  lemma DedupeLists<T(!new)>(ix: Index<T>, xs: seq<T>)
    requires Coherent(ix)
    ensures Lists(ix, Table(ix.key, xs), Dedupe(ix, xs))
  {
    KeepLastEnumerates(ix.key, xs);
    SortLists(ix, Table(ix.key, xs), KeepLast(ix.key, xs));
  }

  lemma FirstIsLeast<T>(ix: Index<T>, m: map<string, T>, xs: seq<T>, y: T)
    requires Lists(ix, m, xs) && y in xs
    ensures y == xs[0] || RowLess(ix.rank(xs[0]), ix.rank(y))
  {
  }

  /** A map has one report-order listing, so the order Go iterates a map in cannot show. */
  lemma {:induction false} ListingUnique<T>(ix: Index<T>, m: map<string, T>, xs: seq<T>, ys: seq<T>)
    requires Lists(ix, m, xs) && Lists(ix, m, ys)
    ensures xs == ys
    decreases |xs|
  {
    EmptyListing(ix.key, m, xs);
    EmptyListing(ix.key, m, ys);
    if xs != [] {
      assert ys != [] && xs[0] == ys[0] by {
        SameFirst(ix, m, xs, ys);
      }
      assert xs[1..] == ys[1..] by {
        ListsTail(ix, m, xs);
        ListsTail(ix, m, ys);
        ListingUnique(ix, m - {ix.key(xs[0])}, xs[1..], ys[1..]);
      }
      assert xs == [xs[0]] + xs[1..] && ys == [ys[0]] + ys[1..];
    }
  }

  lemma EmptyListing<T>(key: T -> string, m: map<string, T>, xs: seq<T>)
    requires Enumerates(key, m, xs)
    ensures xs == [] <==> m == map[]
  {
    if xs != [] {
      assert key(xs[0]) in m;
    }
    if m != map[] {
      var k :| k in m;
      assert m[k] in xs;
    }
  }

  lemma SameFirst<T>(ix: Index<T>, m: map<string, T>, xs: seq<T>, ys: seq<T>)
    requires Lists(ix, m, xs) && Lists(ix, m, ys) && xs != [] && ys != []
    ensures xs[0] == ys[0]
  {
    assert m[ix.key(xs[0])] in ys && m[ix.key(ys[0])] in xs;
    FirstIsLeast(ix, m, xs, ys[0]);
    FirstIsLeast(ix, m, ys, xs[0]);
    if xs[0] != ys[0] {
      RowLessTransitive(ix.rank(xs[0]), ix.rank(ys[0]), ix.rank(xs[0]));
      RowLessIrreflexive(ix.rank(xs[0]));
    }
  }

  lemma EnumeratesTail<T>(key: T -> string, m: map<string, T>, x: T, rest: seq<T>)
    requires Enumerates(key, m, [x] + rest)
    ensures Enumerates(key, m - {key(x)}, rest)
  {
    var all := [x] + rest;
    assert all[0] == x;
    forall i | 0 <= i < |rest| ensures key(rest[i]) != key(x) && key(rest[i]) in m && m[key(rest[i])] == rest[i] {
      assert all[i + 1] == rest[i];
    }
    forall i, j | 0 <= i < j < |rest| ensures key(rest[i]) != key(rest[j]) {
      assert all[i + 1] == rest[i] && all[j + 1] == rest[j];
    }
    forall k | k in m && k != key(x) ensures m[k] in rest {
      assert m[k] in all;
    }
  }

  lemma ListsTail<T>(ix: Index<T>, m: map<string, T>, xs: seq<T>)
    requires Lists(ix, m, xs) && xs != []
    ensures Lists(ix, m - {ix.key(xs[0])}, xs[1..])
  {
    assert xs == [xs[0]] + xs[1..];
    EnumeratesTail(ix.key, m, xs[0], xs[1..]);
  }

  lemma EnumerationTable<T>(key: T -> string, m: map<string, T>, xs: seq<T>)
    requires Enumerates(key, m, xs)
    ensures Table(key, xs) == m
  {
    TableMembers(key, xs);
    var t := Table(key, xs);
    forall k | k in m ensures k in t && t[k] == m[k] {
      assert key(m[k]) in t;
    }
  }

  /** Deduplicating keeps exactly what the list meant. */
  lemma DedupeTable<T(!new)>(ix: Index<T>, xs: seq<T>)
    requires Coherent(ix)
    ensures Table(ix.key, Dedupe(ix, xs)) == Table(ix.key, xs)
  {
    DedupeLists(ix, xs);
    EnumerationTable(ix.key, Table(ix.key, xs), Dedupe(ix, xs));
  }

  /** Lists that mean the same map deduplicate to the same list, and only those do. */
  lemma DedupeCanonical<T(!new)>(ix: Index<T>, xs: seq<T>, ys: seq<T>)
    requires Coherent(ix)
    ensures Dedupe(ix, xs) == Dedupe(ix, ys) <==> Table(ix.key, xs) == Table(ix.key, ys)
  {
    DedupeTable(ix, xs);
    DedupeTable(ix, ys);
    if Table(ix.key, xs) == Table(ix.key, ys) {
      DedupeLists(ix, xs);
      DedupeLists(ix, ys);
      ListingUnique(ix, Table(ix.key, xs), Dedupe(ix, xs), Dedupe(ix, ys));
    }
  }

  lemma MergeTable<T(!new)>(ix: Index<T>, a: seq<T>, b: seq<T>)
    requires Coherent(ix)
    ensures Table(ix.key, Dedupe(ix, a + b)) == Table(ix.key, a) + Table(ix.key, b)
  {
    DedupeTable(ix, a + b);
    TableConcat(ix.key, a, b);
  }

  lemma MergeWithSelf<T(!new)>(ix: Index<T>, a: seq<T>)
    requires Coherent(ix)
    ensures Table(ix.key, Dedupe(ix, a + a)) == Table(ix.key, a)
  {
    MergeTable(ix, a, a);
    assert Table(ix.key, a) + Table(ix.key, a) == Table(ix.key, a);
  }

  lemma UnionAssociative<K, V>(a: map<K, V>, b: map<K, V>, c: map<K, V>)
    ensures a + b + c == a + (b + c)
  {
  }

  lemma MergeMeaning<T(!new)>(ix: Index<T>, a: seq<T>, b: seq<T>, c: seq<T>)
    requires Coherent(ix)
    ensures Table(ix.key, Dedupe(ix, a + b) + c) == Table(ix.key, a + Dedupe(ix, b + c))
  {
    MergeTable(ix, a, b);
    MergeTable(ix, b, c);
    TableConcat(ix.key, Dedupe(ix, a + b), c);
    TableConcat(ix.key, a, Dedupe(ix, b + c));
    UnionAssociative(Table(ix.key, a), Table(ix.key, b), Table(ix.key, c));
  }

  /** Merging lists is associative. */
  lemma MergeAssociative<T(!new)>(ix: Index<T>, a: seq<T>, b: seq<T>, c: seq<T>)
    requires Coherent(ix)
    ensures Dedupe(ix, Dedupe(ix, a + b) + c) == Dedupe(ix, a + Dedupe(ix, b + c))
  {
    MergeMeaning(ix, a, b, c);
    DedupeCanonical(ix, Dedupe(ix, a + b) + c, a + Dedupe(ix, b + c));
  }

  /** A later list that covers an earlier one's keys makes merging the earlier one first invisible. */
  lemma MergeAbsorbs<T(!new)>(ix: Index<T>, base: seq<T>, a: seq<T>, b: seq<T>)
    requires Coherent(ix)
    requires Table(ix.key, a).Keys <= Table(ix.key, b).Keys
    ensures Dedupe(ix, Dedupe(ix, base + a) + b) == Dedupe(ix, base + b)
  {
    DedupeTable(ix, base + a);
    TableConcat(ix.key, Dedupe(ix, base + a), b);
    TableConcat(ix.key, base, a);
    TableConcat(ix.key, base, b);
    DedupeCanonical(ix, Dedupe(ix, base + a) + b, base + b);
  }

  /** What the overwriting loop keeps: `seen` points every key at its record in `out`. */
  ghost predicate Points<T>(key: T -> string, m: map<string, T>, seen: map<string, nat>, out: seq<T>)
  {
    && seen.Keys == m.Keys
    && (forall k :: k in seen ==> seen[k] < |out| && out[seen[k]] == m[k] && key(m[k]) == k)
    && (forall j :: 0 <= j < |out| ==> key(out[j]) in seen && seen[key(out[j])] == j)
  }

  lemma PointsReplace<T>(key: T -> string, m: map<string, T>, seen: map<string, nat>,
                                            out: seq<T>, x: T)
    requires Points(key, m, seen, out) && key(x) in seen
    ensures Points(key, m[key(x) := x], seen, out[seen[key(x)] := x])
  {
  }

  lemma PointsAppend<T>(key: T -> string, m: map<string, T>, seen: map<string, nat>,
                                           out: seq<T>, x: T)
    requires Points(key, m, seen, out) && key(x) !in seen
    ensures Points(key, m[key(x) := x], seen[key(x) := |out|], out + [x])
  {
  }

  lemma PointsEnumerates<T>(key: T -> string, m: map<string, T>, seen: map<string, nat>, out: seq<T>)
    requires Points(key, m, seen, out)
    ensures Enumerates(key, m, out)
  {
    forall k | k in m ensures m[k] in out && key(m[k]) == k {
      assert out[seen[k]] in out;
    }
  }

  /** The loop of `dedupeVerdicts` and `dedupeMeasurements`: overwrite in place, then sort. */
  method DedupeSlice<T(!new)>(ix: Index<T>, xs: seq<T>) returns (out: seq<T>)
    requires Coherent(ix)
    ensures out == Dedupe(ix, xs)
  {
    var seen: map<string, nat> := map[];
    out := [];
    for i := 0 to |xs|
      invariant Points(ix.key, Table(ix.key, xs[..i]), seen, out)
    {
      var x := xs[i];
      assert xs[..i + 1][..i] == xs[..i];
      if ix.key(x) in seen {
        PointsReplace(ix.key, Table(ix.key, xs[..i]), seen, out, x);
        out := out[seen[ix.key(x)] := x];
      } else {
        PointsAppend(ix.key, Table(ix.key, xs[..i]), seen, out, x);
        seen := seen[ix.key(x) := |out|];
        out := out + [x];
      }
    }
    assert xs[..|xs|] == xs;
    PointsEnumerates(ix.key, Table(ix.key, xs), seen, out);
    SortLists(ix, Table(ix.key, xs), out);
    DedupeLists(ix, xs);
    ListingUnique(ix, Table(ix.key, xs), Sort(NotAfter(ix), out), Dedupe(ix, xs));
    out := Sort(NotAfter(ix), out);
  }

  /** The loop of `mergeExecutions`: fill a map, list it in whatever order it iterates, sort. */
  method DedupeThroughMap<T(!new)>(ix: Index<T>, xs: seq<T>) returns (out: seq<T>)
    requires Coherent(ix)
    ensures out == Dedupe(ix, xs)
  {
    var byKey: map<string, T> := map[];
    for i := 0 to |xs|
      invariant byKey == Table(ix.key, xs[..i])
    {
      assert xs[..i + 1][..i] == xs[..i];
      byKey := byKey[ix.key(xs[i]) := xs[i]];
    }
    assert xs[..|xs|] == xs;
    TableMembers(ix.key, xs);
    out := ValuesOf(ix.key, byKey);
    SortLists(ix, byKey, out);
    DedupeLists(ix, xs);
    ListingUnique(ix, byKey, Sort(NotAfter(ix), out), Dedupe(ix, xs));
    out := Sort(NotAfter(ix), out);
  }

  /** The values of a map in whatever order it iterates. */
  method ValuesOf<T(!new)>(key: T -> string, byKey: map<string, T>) returns (out: seq<T>)
    requires forall k :: k in byKey ==> key(byKey[k]) == k
    ensures Enumerates(key, byKey, out)
  {
    out := [];
    var left := byKey.Keys;
    while left != {}
      invariant left <= byKey.Keys
      invariant Enumerates(key, byKey - left, out)
      decreases left
    {
      var k :| k in left;
      EnumeratesSnoc(key, byKey - left, byKey[k], out);
      assert byKey - (left - {k}) == (byKey - left)[k := byKey[k]];
      out := out + [byKey[k]];
      left := left - {k};
    }
    assert byKey - left == byKey;
  }
}
