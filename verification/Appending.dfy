/**
 The two merges that keep first-appearance order instead of sorting: incidents, where the first
 record of a key wins, and run parts and storage selections, where a later record replaces the
 earlier one in place.
 */
module Appending {
  import opened Core
  import opened Keyed
  import opened Sorting

  // ---- first record wins ---------------------------------------------------

  ghost predicate HasKey<T>(key: T -> string, xs: seq<T>, k: string)
  {
    exists x :: x in xs && key(x) == k
  }

  ghost function KeepFirst<T>(key: T -> string, xs: seq<T>): seq<T>
  {
    if xs == [] then []
    else
      var kept := KeepFirst(key, xs[..|xs| - 1]);
      var last := xs[|xs| - 1];
      if HasKey(key, kept, key(last)) then kept else kept + [last]
  }

  lemma HasKeyConcat<T>(key: T -> string, a: seq<T>, b: seq<T>, k: string)
    ensures HasKey(key, a + b, k) <==> HasKey(key, a, k) || HasKey(key, b, k)
  {
    assert forall x :: x in a + b <==> x in a || x in b;
  }

  lemma {:induction false} KeepFirstKeys<T>(key: T -> string, xs: seq<T>, k: string)
    ensures HasKey(key, KeepFirst(key, xs), k) <==> HasKey(key, xs, k)
  {
    if xs != [] {
      var init, last := xs[..|xs| - 1], xs[|xs| - 1];
      assert xs == init + [last];
      KeepFirstKeys(key, init, k);
      HasKeyConcat(key, init, [last], k);
      HasKeyConcat(key, KeepFirst(key, init), [last], k);
      assert HasKey(key, [last], k) <==> key(last) == k by { assert last in [last]; }
    }
  }

  lemma KeepFirstSnoc<T>(key: T -> string, xs: seq<T>, x: T)
    ensures KeepFirst(key, xs + [x]) == if HasKey(key, xs, key(x)) then KeepFirst(key, xs) else KeepFirst(key, xs) + [x]
  {
    assert (xs + [x])[..|xs|] == xs;
    KeepFirstKeys(key, xs, key(x));
  }

  lemma {:induction false} KeepFirstConcat<T>(key: T -> string, a: seq<T>, b: seq<T>)
    ensures KeepFirst(key, KeepFirst(key, a) + b) == KeepFirst(key, a + b)
    decreases |b|
  {
    if b == [] {
      KeepFirstIdempotent(key, a);
      assert a + b == a && KeepFirst(key, a) + b == KeepFirst(key, a);
    } else {
      var init, last := b[..|b| - 1], b[|b| - 1];
      var fa := KeepFirst(key, a);
      KeepFirstConcat(key, a, init);
      assert a + b == (a + init) + [last] && fa + b == (fa + init) + [last];
      KeepFirstSnoc(key, a + init, last);
      KeepFirstSnoc(key, fa + init, last);
      HasKeyConcat(key, a, init, key(last));
      HasKeyConcat(key, fa, init, key(last));
      KeepFirstKeys(key, a, key(last));
    }
  }

  lemma {:induction false} KeepFirstIdempotent<T>(key: T -> string, xs: seq<T>)
    ensures KeepFirst(key, KeepFirst(key, xs)) == KeepFirst(key, xs)
  {
    if xs != [] {
      var init, last := xs[..|xs| - 1], xs[|xs| - 1];
      KeepFirstIdempotent(key, init);
      KeepFirstSnoc(key, KeepFirst(key, init), last);
    }
  }

  lemma {:induction false} KeepFirstIgnoresRepeats<T>(key: T -> string, a: seq<T>, b: seq<T>)
    requires forall i :: 0 <= i < |b| ==> HasKey(key, a, key(b[i]))
    ensures KeepFirst(key, a + b) == KeepFirst(key, a)
    decreases |b|
  {
    if b == [] {
      assert a + b == a;
    } else {
      var init, last := b[..|b| - 1], b[|b| - 1];
      KeepFirstIgnoresRepeats(key, a, init);
      assert a + b == (a + init) + [last];
      KeepFirstSnoc(key, a + init, last);
      HasKeyConcat(key, a, init, key(last));
    }
  }

  lemma KeepFirstIgnoresPrefix<T>(key: T -> string, a: seq<T>, b: seq<T>, c: seq<T>)
    requires forall i :: 0 <= i < |b| ==> HasKey(key, a, key(b[i]))
    ensures KeepFirst(key, a + (b + c)) == KeepFirst(key, a + c)
  {
    assert a + (b + c) == (a + b) + c;
    KeepFirstConcat(key, a + b, c);
    KeepFirstIgnoresRepeats(key, a, b);
    KeepFirstConcat(key, a, c);
  }

  lemma KeepFirstAssociative<T>(key: T -> string, a: seq<T>, b: seq<T>, c: seq<T>)
    ensures KeepFirst(key, KeepFirst(key, a + b) + c) == KeepFirst(key, a + KeepFirst(key, b + c))
  {
    assert KeepFirst(key, KeepFirst(key, a + b) + c) == KeepFirst(key, a + (b + c)) by {
      KeepFirstConcat(key, a + b, c);
      assert (a + b) + c == a + (b + c);
    }
    assert KeepFirst(key, a + KeepFirst(key, b + c)) == KeepFirst(key, a + (b + c)) by {
      KeepFirstSecond(key, a, b + c);
    }
  }

  lemma {:induction false} KeepFirstSecond<T>(key: T -> string, a: seq<T>, b: seq<T>)
    ensures KeepFirst(key, a + KeepFirst(key, b)) == KeepFirst(key, a + b)
    decreases |b|
  {
    if b != [] {
      var init, last := b[..|b| - 1], b[|b| - 1];
      var fb := KeepFirst(key, init);
      assert b == init + [last];
      assert a + b == (a + init) + [last];
      KeepFirstSecond(key, a, init);
      KeepFirstSnoc(key, a + init, last);
      KeepFirstSnoc(key, init, last);
      HasKeyConcat(key, a, init, key(last));
      if !HasKey(key, init, key(last)) {
        assert a + (fb + [last]) == (a + fb) + [last];
        KeepFirstSnoc(key, a + fb, last);
        HasKeyConcat(key, a, fb, key(last));
        KeepFirstKeys(key, init, key(last));
      }
    }
  }

  /** A growing log merged snapshot by snapshot reads the same as its last snapshot merged once. */
  lemma GrowingLogAbsorbed<T>(key: T -> string, base: seq<T>, a: seq<T>, rest: seq<T>)
    ensures KeepFirst(key, KeepFirst(key, base + a) + (a + rest)) == KeepFirst(key, base + (a + rest))
  {
    KeepFirstConcat(key, base + a, a + rest);
    assert forall i :: 0 <= i < |a| ==> HasKey(key, base + a, key(a[i])) by {
      assert forall i :: 0 <= i < |a| ==> a[i] in base + a;
    }
    KeepFirstIgnoresPrefix(key, base + a, a, rest);
    assert (base + a) + rest == base + (a + rest);
  }

  lemma {:induction false} KeepFirstMembers<T>(key: T -> string, xs: seq<T>)
    ensures forall x :: x in KeepFirst(key, xs) ==> x in xs
    ensures DistinctKeys(key, KeepFirst(key, xs))
  {
    if xs != [] {
      var init, last := xs[..|xs| - 1], xs[|xs| - 1];
      var kept := KeepFirst(key, init);
      KeepFirstMembers(key, init);
      assert xs == init + [last];
      assert forall i :: 0 <= i < |kept| ==> kept[i] in kept;
    }
  }

  /** A list whose keys are already distinct loses nothing. */
  lemma {:induction false} KeepFirstDistinct<T>(key: T -> string, xs: seq<T>)
    requires DistinctKeys(key, xs)
    ensures KeepFirst(key, xs) == xs
  {
    if xs != [] {
      var init, last := xs[..|xs| - 1], xs[|xs| - 1];
      KeepFirstDistinct(key, init);
      assert xs == init + [last];
      assert !HasKey(key, init, key(last));
    }
  }

  lemma {:induction false} KeepFirstKeepsBase<T>(key: T -> string, a: seq<T>, b: seq<T>)
    ensures KeepFirst(key, a) <= KeepFirst(key, a + b)
    decreases |b|
  {
    if b == [] {
      assert a + b == a;
    } else {
      var init, last := b[..|b| - 1], b[|b| - 1];
      KeepFirstKeepsBase(key, a, init);
      assert a + b == (a + init) + [last];
      KeepFirstSnoc(key, a + init, last);
    }
  }

  /** The loop of `mergeIncidents`. */
  method KeepFirstLoop<T>(key: T -> string, xs: seq<T>) returns (out: seq<T>)
    ensures out == KeepFirst(key, xs)
  {
    var seen: set<string> := {};
    out := [];
    for i := 0 to |xs|
      invariant out == KeepFirst(key, xs[..i])
      invariant forall k :: k in seen <==> HasKey(key, out, k)
    {
      assert xs[..i + 1] == xs[..i] + [xs[i]];
      KeepFirstSnoc(key, xs[..i], xs[i]);
      KeepFirstKeys(key, xs[..i], key(xs[i]));
      if key(xs[i]) !in seen {
        seen := seen + {key(xs[i])};
        forall k ensures HasKey(key, out + [xs[i]], k) <==> k in seen {
          HasKeyConcat(key, out, [xs[i]], k);
          assert xs[i] in [xs[i]];
        }
        out := out + [xs[i]];
      }
    }
    assert xs[..|xs|] == xs;
  }

  // ---- replaced in place ----------------------------------------------------

  /** Replace the first record with `x`'s key, or append `x`. */
  function Put<T, K(==)>(key: T -> K, out: seq<T>, x: T): seq<T>
  {
    if out == [] then [x]
    else if key(out[0]) == key(x) then [x] + out[1..]
    else [out[0]] + Put(key, out[1..], x)
  }

  function Upsert<T, K(==)>(key: T -> K, out: seq<T>, xs: seq<T>): seq<T>
  {
    if xs == [] then out else Put(key, Upsert(key, out, xs[..|xs| - 1]), xs[|xs| - 1])
  }

  /** The record a key finds first. */
  function Find<T, K(==)>(key: T -> K, xs: seq<T>, k: K): Option<T>
  {
    if xs == [] then None
    else if key(xs[0]) == k then Some(xs[0])
    else Find(key, xs[1..], k)
  }

  function KeyList<T, K>(key: T -> K, xs: seq<T>): (ks: seq<K>)
    ensures |ks| == |xs| && forall i :: 0 <= i < |xs| ==> ks[i] == key(xs[i])
  {
    if xs == [] then [] else [key(xs[0])] + KeyList(key, xs[1..])
  }

  lemma {:induction false} PutFinds<T, K(!new)>(key: T -> K, out: seq<T>, x: T, k: K)
    ensures Find(key, Put(key, out, x), k) == if k == key(x) then Some(x) else Find(key, out, k)
  {
    if out != [] && key(out[0]) != key(x) {
      PutFinds(key, out[1..], x, k);
    }
  }

  lemma {:induction false} PutKeys<T, K(!new)>(key: T -> K, out: seq<T>, x: T)
    ensures KeyList(key, Put(key, out, x)) ==
            if key(x) in KeyList(key, out) then KeyList(key, out) else KeyList(key, out) + [key(x)]
  {
    if out != [] {
      assert KeyList(key, out) == [key(out[0])] + KeyList(key, out[1..]);
      if key(out[0]) != key(x) {
        PutKeys(key, out[1..], x);
      }
    }
  }

  lemma {:induction false} PutNew<T, K(!new)>(key: T -> K, out: seq<T>, x: T)
    requires key(x) !in KeyList(key, out)
    ensures Put(key, out, x) == out + [x]
  {
    if out != [] {
      assert KeyList(key, out) == [key(out[0])] + KeyList(key, out[1..]);
      PutNew(key, out[1..], x);
    }
  }

  lemma {:induction false} PutAtFirst<T, K(!new)>(key: T -> K, out: seq<T>, x: T, i: nat)
    requires i < |out| && key(out[i]) == key(x)
    requires forall k :: 0 <= k < i ==> key(out[k]) != key(x)
    ensures Put(key, out, x) == out[i := x]
  {
    if i > 0 {
      PutAtFirst(key, out[1..], x, i - 1);
    }
  }

  lemma {:induction false} PutReplaces<T, K(!new)>(key: T -> K, out: seq<T>, x: T, replaced: seq<T>)
    requires Distinct(KeyList(key, out)) && key(x) in KeyList(key, out)
    requires |replaced| == |out|
    requires forall k :: 0 <= k < |out| ==> replaced[k] == if key(out[k]) == key(x) then x else out[k]
    ensures replaced == Put(key, out, x)
  {
    var ks := KeyList(key, out);
    if ks[0] == key(x) {
      forall k | 1 <= k < |out| ensures replaced[k] == out[k] {
        assert ks[0] != ks[k];
      }
    } else {
      DistinctRest(key, out);
      PutReplaces(key, out[1..], x, replaced[1..]);
    }
  }

  const SELF: string -> string := s => s

  /** After an upsert each key finds its last record, else what it found before; keys keep their place. */
  lemma {:induction false} UpsertMeaning<T, K(!new)>(key: T -> K, out: seq<T>, xs: seq<T>)
    ensures forall k :: Find(key, Upsert(key, out, xs), k) ==
                        if k in Table(key, xs) then Some(Table(key, xs)[k]) else Find(key, out, k)
    ensures forall k :: k in KeyList(key, out) ==> k in KeyList(key, Upsert(key, out, xs))
    ensures |KeyList(key, out)| <= |KeyList(key, Upsert(key, out, xs))|
            && KeyList(key, Upsert(key, out, xs))[..|out|] == KeyList(key, out)
  {
    if xs != [] {
      var init, last := xs[..|xs| - 1], xs[|xs| - 1];
      UpsertMeaning(key, out, init);
      PutKeys(key, Upsert(key, out, init), last);
      forall k {
        PutFinds(key, Upsert(key, out, init), last, k);
      }
    }
  }

  /** From nothing, an upsert lists each key once, where it first appeared. */
  lemma {:induction false} UpsertFromEmpty<T>(key: T -> string, xs: seq<T>)
    ensures KeyList(key, Upsert(key, [], xs)) == KeepFirst(SELF, KeyList(key, xs))
    ensures Distinct(KeyList(key, Upsert(key, [], xs)))
  {
    if xs != [] {
      UpsertFromEmpty(key, xs[..|xs| - 1]);
      UpsertStep(key, xs[..|xs| - 1], xs[|xs| - 1]);
      assert xs == xs[..|xs| - 1] + [xs[|xs| - 1]];
    }
    KeepFirstMembers(SELF, KeyList(key, xs));
  }

  lemma UpsertStep<T>(key: T -> string, init: seq<T>, last: T)
    requires KeyList(key, Upsert(key, [], init)) == KeepFirst(SELF, KeyList(key, init))
    ensures KeyList(key, Upsert(key, [], init + [last])) == KeepFirst(SELF, KeyList(key, init + [last]))
  {
    var before := Upsert(key, [], init);
    assert (init + [last])[..|init|] == init;
    PutKeys(key, before, last);
    assert KeyList(key, init + [last]) == KeyList(key, init) + [key(last)];
    KeepFirstSnoc(SELF, KeyList(key, init), key(last));
    KeepFirstKeys(SELF, KeyList(key, init), key(last));
    assert key(last) in KeyList(key, before) <==> HasKey(SELF, KeyList(key, before), key(last));
  }

  lemma {:induction false} FindInDistinct<T, K(!new)>(key: T -> K, xs: seq<T>, i: nat)
    requires i < |xs| && Distinct(KeyList(key, xs))
    ensures Find(key, xs, key(xs[i])) == Some(xs[i])
  {
    if i > 0 {
      assert KeyList(key, xs)[0] != KeyList(key, xs)[i];
      DistinctRest(key, xs);
      FindInDistinct(key, xs[1..], i - 1);
    }
  }

  lemma DistinctRest<T, K(!new)>(key: T -> K, xs: seq<T>)
    requires xs != [] && Distinct(KeyList(key, xs))
    ensures Distinct(KeyList(key, xs[1..]))
  {
    var ks := KeyList(key, xs);
    assert KeyList(key, xs[1..]) == ks[1..];
  }

  lemma UpsertDetermined<T, K(!new)>(key: T -> K, xs: seq<T>, ys: seq<T>)
    requires KeyList(key, xs) == KeyList(key, ys) && Distinct(KeyList(key, xs))
    requires forall k :: Find(key, xs, k) == Find(key, ys, k)
    ensures xs == ys
  {
    assert |xs| == |KeyList(key, xs)| == |ys|;
    forall i | 0 <= i < |xs| ensures xs[i] == ys[i] {
      FindInDistinct(key, xs, i);
      FindInDistinct(key, ys, i);
      assert KeyList(key, xs)[i] == KeyList(key, ys)[i];
    }
  }

  lemma {:induction false} FindAbsent<T, K(!new)>(key: T -> K, xs: seq<T>, k: K)
    ensures Find(key, xs, k).None? <==> k !in KeyList(key, xs)
    ensures Find(key, xs, k).None? <==> k !in Table(key, xs)
  {
    if xs != [] {
      FindAbsent(key, xs[1..], k);
      assert xs == [xs[0]] + xs[1..];
      TableCons(key, xs[0], xs[1..]);
    }
  }

  lemma {:induction false} TableFinds<T, K(!new)>(key: T -> K, xs: seq<T>, k: K)
    requires Distinct(KeyList(key, xs))
    ensures k in Table(key, xs) ==> Find(key, xs, k) == Some(Table(key, xs)[k])
    ensures k !in Table(key, xs) ==> Find(key, xs, k) == None
  {
    if xs != [] {
      var ks := KeyList(key, xs);
      DistinctRest(key, xs);
      TableFinds(key, xs[1..], k);
      assert xs == [xs[0]] + xs[1..];
      TableCons(key, xs[0], xs[1..]);
      FindAbsent(key, xs[1..], ks[0]);
      assert ks[0] !in ks[1..];
    }
  }

  lemma UpsertTable<T>(key: T -> string, xs: seq<T>)
    ensures Table(key, Upsert(key, [], xs)) == Table(key, xs)
  {
    var out := Upsert(key, [], xs);
    UpsertFromEmpty(key, xs);
    UpsertMeaning(key, [], xs);
    forall k {
      TableFinds(key, out, k);
    }
  }

  lemma KeyListConcat<T, K(!new)>(key: T -> K, a: seq<T>, b: seq<T>)
    ensures KeyList(key, a + b) == KeyList(key, a) + KeyList(key, b)
  {
  }

  /** Merging part lists is associative. */
  lemma UpsertAssociative<T>(key: T -> string, a: seq<T>, b: seq<T>, c: seq<T>)
    ensures Upsert(key, [], Upsert(key, [], a + b) + c) == Upsert(key, [], a + Upsert(key, [], b + c))
  {
    var ab, bc := Upsert(key, [], a + b), Upsert(key, [], b + c);
    var l, r := Upsert(key, [], ab + c), Upsert(key, [], a + bc);
    UpsertKeys(key, a, b, c);
    UpsertFromEmpty(key, ab + c);
    UpsertTables(key, a, b, c);
    UpsertMeaning(key, [], ab + c);
    UpsertMeaning(key, [], a + bc);
    UpsertDetermined(key, l, r);
  }

  lemma UpsertKeys<T>(key: T -> string, a: seq<T>, b: seq<T>, c: seq<T>)
    ensures KeyList(key, Upsert(key, [], Upsert(key, [], a + b) + c)) ==
            KeyList(key, Upsert(key, [], a + Upsert(key, [], b + c)))
  {
    var ab, bc := Upsert(key, [], a + b), Upsert(key, [], b + c);
    UpsertFromEmpty(key, a + b);
    UpsertFromEmpty(key, b + c);
    UpsertFromEmpty(key, ab + c);
    UpsertFromEmpty(key, a + bc);
    KeyListConcat(key, ab, c);
    KeyListConcat(key, a, bc);
    KeyListConcat(key, a, b);
    KeyListConcat(key, b, c);
    KeepFirstAssociative(SELF, KeyList(key, a), KeyList(key, b), KeyList(key, c));
  }

  lemma UpsertTables<T>(key: T -> string, a: seq<T>, b: seq<T>, c: seq<T>)
    ensures Table(key, Upsert(key, [], a + b) + c) == Table(key, a + Upsert(key, [], b + c))
  {
    UpsertTable(key, a + b);
    UpsertTable(key, b + c);
    TableConcat(key, Upsert(key, [], a + b), c);
    TableConcat(key, a, Upsert(key, [], b + c));
    TableConcat(key, a, b);
    TableConcat(key, b, c);
    UnionAssociative(Table(key, a), Table(key, b), Table(key, c));
  }

  // ---- grouping upserts ---------------------------------------------------------

  lemma {:induction false} UpsertConcat<T, K>(key: T -> K, out: seq<T>, xs: seq<T>, ys: seq<T>)
    ensures Upsert(key, out, xs + ys) == Upsert(key, Upsert(key, out, xs), ys)
  {
    if ys == [] {
      assert xs + ys == xs;
    } else {
      UpsertConcat(key, out, xs, ys[..|ys| - 1]);
      assert (xs + ys)[..|xs + ys| - 1] == xs + ys[..|ys| - 1];
    }
  }

  /** Keys appended where they are new. */
  function AddKeys<K(==)>(ks: seq<K>, more: seq<K>): seq<K>
  {
    if more == [] then ks
    else
      var before, last := AddKeys(ks, more[..|more| - 1]), more[|more| - 1];
      if last in before then before else before + [last]
  }

  lemma {:induction false} AddKeysMembers<K>(ks: seq<K>, more: seq<K>, k: K)
    ensures k in AddKeys(ks, more) <==> k in ks || k in more
  {
    if more != [] {
      AddKeysMembers(ks, more[..|more| - 1], k);
      AddKeysMembers(ks, more[..|more| - 1], more[|more| - 1]);
      assert more == more[..|more| - 1] + [more[|more| - 1]];
    }
  }

  lemma AddKeysSnoc<K>(ks: seq<K>, more: seq<K>, k: K)
    ensures AddKeys(ks, more + [k]) == if k in AddKeys(ks, more) then AddKeys(ks, more) else AddKeys(ks, more) + [k]
  {
    assert (more + [k])[..|more|] == more;
  }

  lemma {:induction false} AddKeysAssociative<K>(a: seq<K>, b: seq<K>, c: seq<K>)
    ensures AddKeys(a, AddKeys(b, c)) == AddKeys(AddKeys(a, b), c)
  {
    if c != [] {
      var init, last := c[..|c| - 1], c[|c| - 1];
      AddKeysAssociative(a, b, init);
      AddKeysMembers(b, init, last);
      AddKeysMembers(AddKeys(a, b), init, last);
      AddKeysMembers(a, b, last);
      AddKeysSnoc(a, AddKeys(b, init), last);
    }
  }

  lemma OneMoreKey<T, K(!new)>(key: T -> K, out: seq<T>, xs: seq<T>, x: T)
    requires KeyList(key, Upsert(key, out, xs)) == AddKeys(KeyList(key, out), KeyList(key, xs))
    ensures KeyList(key, Upsert(key, out, xs + [x])) == AddKeys(KeyList(key, out), KeyList(key, xs + [x]))
  {
    assert (xs + [x])[..|xs|] == xs;
    PutKeys(key, Upsert(key, out, xs), x);
    AddKeysSnoc(KeyList(key, out), KeyList(key, xs), key(x));
    KeyListConcat(key, xs, [x]);
    assert KeyList(key, [x]) == [key(x)];
  }

  lemma {:induction false} UpsertKeyList<T, K(!new)>(key: T -> K, out: seq<T>, xs: seq<T>)
    ensures KeyList(key, Upsert(key, out, xs)) == AddKeys(KeyList(key, out), KeyList(key, xs))
  {
    if xs == [] {
      assert KeyList(key, xs) == [];
    } else {
      var init, last := xs[..|xs| - 1], xs[|xs| - 1];
      assert xs == init + [last];
      UpsertKeyList(key, out, init);
      OneMoreKey(key, out, init, last);
    }
  }

  /** The record at `j` has the key of an earlier one. */
  predicate Repeats<T, K(==)>(key: T -> K, xs: seq<T>, j: nat)
  {
    j < |xs| && exists i :: 0 <= i < j && key(xs[i]) == key(xs[j])
  }

  predicate RepeatedIn<T, K(==)>(key: T -> K, xs: seq<T>, k: K)
  {
    exists j: nat :: j < |xs| && Repeats(key, xs, j) && key(xs[j]) == k
  }

  lemma {:induction false} PutKeepsRepeats<T, K(!new)>(key: T -> K, out: seq<T>, x: T, i: nat, j: nat)
    requires i < j < |out| && key(out[i]) == key(out[j])
    ensures j < |Put(key, out, x)| && Put(key, out, x)[j] == out[j]
  {
    if key(out[0]) != key(x) {
      if i > 0 {
        PutKeepsRepeats(key, out[1..], x, i - 1, j - 1);
      } else {
        PutElsewhere(key, out[1..], x, j - 1);
      }
    }
  }

  lemma {:induction false} PutElsewhere<T, K(!new)>(key: T -> K, out: seq<T>, x: T, j: nat)
    requires j < |out| && key(out[j]) != key(x)
    ensures j < |Put(key, out, x)| && Put(key, out, x)[j] == out[j]
  {
    if key(out[0]) != key(x) && j > 0 {
      PutElsewhere(key, out[1..], x, j - 1);
    }
  }

  lemma PutRepeatsNone<T, K(!new)>(key: T -> K, out: seq<T>, x: T, i: nat, j: nat)
    requires i < j < |Put(key, out, x)| && key(Put(key, out, x)[i]) == key(Put(key, out, x)[j])
    ensures j < |out| && key(out[i]) == key(out[j])
  {
    var ks := KeyList(key, Put(key, out, x));
    PutKeys(key, out, x);
    assert ks[i] == ks[j];
    if key(x) !in KeyList(key, out) {
      assert ks == KeyList(key, out) + [key(x)];
      assert ks[i] in KeyList(key, out);
    }
  }

  /** An upsert leaves every repeated record of the earlier list as it was, and repeats no key anew. */
  lemma {:induction false} RepeatsUntouched<T, K(!new)>(key: T -> K, out: seq<T>, xs: seq<T>, i: nat, j: nat)
    requires i < j < |Upsert(key, out, xs)| && key(Upsert(key, out, xs)[i]) == key(Upsert(key, out, xs)[j])
    ensures j < |out| && Upsert(key, out, xs)[j] == out[j]
  {
    if xs != [] {
      var init, last := xs[..|xs| - 1], xs[|xs| - 1];
      PutRepeatsNone(key, Upsert(key, out, init), last, i, j);
      RepeatsUntouched(key, out, init, i, j);
      PutKeepsRepeats(key, Upsert(key, out, init), last, i, j);
    }
  }

  lemma {:induction false} FindFirst<T, K(!new)>(key: T -> K, xs: seq<T>, j: nat)
    requires j < |xs| && !Repeats(key, xs, j)
    ensures Find(key, xs, key(xs[j])) == Some(xs[j])
  {
    if j > 0 {
      assert key(xs[0]) != key(xs[j]);
      assert !Repeats(key, xs[1..], j - 1) by {
        assert forall i :: 0 <= i < j - 1 ==> xs[1..][i] == xs[i + 1];
      }
      FindFirst(key, xs[1..], j - 1);
    }
  }

  /** Two upserts of one list are equal when their keys, and what each key finds, are. */
  lemma UpsertsDetermined<T, K(!new)>(key: T -> K, out: seq<T>, xs: seq<T>, ys: seq<T>)
    requires KeyList(key, Upsert(key, out, xs)) == KeyList(key, Upsert(key, out, ys))
    requires forall k :: Find(key, Upsert(key, out, xs), k) == Find(key, Upsert(key, out, ys), k)
    ensures Upsert(key, out, xs) == Upsert(key, out, ys)
  {
    var l, r := Upsert(key, out, xs), Upsert(key, out, ys);
    var ks := KeyList(key, l);
    assert |l| == |ks| == |r|;
    forall j | 0 <= j < |l| ensures l[j] == r[j] {
      assert key(l[j]) == ks[j] == key(r[j]);
      if i :| 0 <= i < j && key(l[i]) == key(l[j]) {
        assert key(r[i]) == ks[i];
        RepeatsUntouched(key, out, xs, i, j);
        RepeatsUntouched(key, out, ys, i, j);
      } else {
        assert forall i :: 0 <= i < j ==> key(r[i]) == ks[i] == key(l[i]);
        FindFirst(key, l, j);
        FindFirst(key, r, j);
      }
    }
  }

  /** The last record of a key. */
  function Last<T, K(==)>(key: T -> K, xs: seq<T>, k: K): Option<T>
  {
    if k in Table(key, xs) then Some(Table(key, xs)[k]) else None
  }

  lemma LastCons<T, K(!new)>(key: T -> K, x: T, xs: seq<T>, k: K)
    ensures Last(key, [x] + xs, k)
         == if Last(key, xs, k).Some? then Last(key, xs, k) else if k == key(x) then Some(x) else None
  {
    TableCons(key, x, xs);
  }

  lemma RepeatedBehind<T, K(!new)>(key: T -> K, x: T, xs: seq<T>, j: nat)
    requires Repeats(key, xs, j)
    ensures Repeats(key, [x] + xs, j + 1) && ([x] + xs)[j + 1] == xs[j]
  {
    var all := [x] + xs;
    var i :| 0 <= i < j && key(xs[i]) == key(xs[j]);
    assert all[i + 1] == xs[i] && all[j + 1] == xs[j];
  }

  lemma RepeatedByFirst<T, K(!new)>(key: T -> K, x: T, xs: seq<T>, j: nat)
    requires j < |xs| && key(x) == key(xs[j])
    ensures Repeats(key, [x] + xs, j + 1) && ([x] + xs)[j + 1] == xs[j]
  {
    var all := [x] + xs;
    assert all[0] == x && all[j + 1] == xs[j];
  }

  lemma RepeatedFrom<T, K(!new)>(key: T -> K, x: T, xs: seq<T>, j: nat)
    requires Repeats(key, [x] + xs, j)
    ensures j > 0 && (key(x) == key(xs[j - 1]) || Repeats(key, xs, j - 1))
  {
    var all := [x] + xs;
    var i :| 0 <= i < j && key(all[i]) == key(all[j]);
    assert all[j] == xs[j - 1];
    if i > 0 {
      assert all[i] == xs[i - 1];
    }
  }

  lemma RepeatedOnly<T, K(!new)>(key: T -> K, x: T, xs: seq<T>, k: K)
    requires RepeatedIn(key, [x] + xs, k)
    ensures RepeatedIn(key, xs, k) || (key(x) == k && Last(key, xs, k).Some?)
  {
    TableMembers(key, xs);
    var j: nat :| j < |[x] + xs| && Repeats(key, [x] + xs, j) && key(([x] + xs)[j]) == k;
    RepeatedFrom(key, x, xs, j);
    assert xs[j - 1] in xs && key(xs[j - 1]) in Table(key, xs);
  }

  lemma RepeatedCons<T, K(!new)>(key: T -> K, x: T, xs: seq<T>, k: K)
    ensures RepeatedIn(key, [x] + xs, k) <==> RepeatedIn(key, xs, k) || (key(x) == k && Last(key, xs, k).Some?)
  {
    TableMembers(key, xs);
    if RepeatedIn(key, xs, k) {
      var j: nat :| j < |xs| && Repeats(key, xs, j) && key(xs[j]) == k;
      RepeatedBehind(key, x, xs, j);
    } else if key(x) == k && k in Table(key, xs) {
      var j: nat :| j < |xs| && xs[j] == Table(key, xs)[k];
      RepeatedByFirst(key, x, xs, j);
    }
    if RepeatedIn(key, [x] + xs, k) {
      RepeatedOnly(key, x, xs, k);
    }
  }

  lemma RepeatedIsListed<T, K(!new)>(key: T -> K, xs: seq<T>, k: K)
    ensures RepeatedIn(key, xs, k) ==> Last(key, xs, k).Some?
  {
    TableMembers(key, xs);
  }

  /** Replacing the first record of a key shows at the end of a list only if the key is not repeated. */
  lemma {:induction false} PutLast<T, K(!new)>(key: T -> K, out: seq<T>, x: T, k: K)
    ensures Last(key, Put(key, out, x), k)
         == if k == key(x) && !RepeatedIn(key, out, k) then Some(x) else Last(key, out, k)
    ensures RepeatedIn(key, Put(key, out, x), k) <==> RepeatedIn(key, out, k)
  {
    if out == [] {
      LastCons(key, x, [], k);
      RepeatedCons(key, x, [], k);
      assert [x] + [] == [x];
    } else {
      var head, rest := out[0], out[1..];
      assert out == [head] + rest;
      LastCons(key, head, rest, k);
      RepeatedCons(key, head, rest, k);
      RepeatedIsListed(key, rest, k);
      if key(head) == key(x) {
        LastCons(key, x, rest, k);
        RepeatedCons(key, x, rest, k);
      } else {
        PutLast(key, rest, x, k);
        LastCons(key, head, Put(key, rest, x), k);
        RepeatedCons(key, head, Put(key, rest, x), k);
      }
    }
  }

  /** The last record a key has in an upserted list: the new one, except behind a repetition. */
  lemma {:induction false} UpsertLast<T, K(!new)>(key: T -> K, b: seq<T>, c: seq<T>, k: K)
    ensures Last(key, Upsert(key, b, c), k)
         == if Last(key, c, k).Some? && !RepeatedIn(key, b, k) then Last(key, c, k) else Last(key, b, k)
    ensures RepeatedIn(key, Upsert(key, b, c), k) <==> RepeatedIn(key, b, k)
  {
    if c != [] {
      UpsertLast(key, b, c[..|c| - 1], k);
      PutLast(key, Upsert(key, b, c[..|c| - 1]), c[|c| - 1], k);
    }
  }

  /** No key repeated in `b` ends with a different record in `c`. */
  ghost predicate RepetitionsAgree<T, K(!new)>(key: T -> K, b: seq<T>, c: seq<T>)
  {
    forall k :: RepeatedIn(key, b, k) && Last(key, c, k).Some? ==> Last(key, b, k) == Last(key, c, k)
  }

  /** What a key finds after an upsert. */
  lemma UpsertFinds<T, K(!new)>(key: T -> K, out: seq<T>, xs: seq<T>, k: K)
    ensures Find(key, Upsert(key, out, xs), k)
         == if Last(key, xs, k).Some? then Last(key, xs, k) else Find(key, out, k)
  {
    UpsertMeaning(key, out, xs);
  }

  /** What a key finds differs between the two groupings only behind a repetition. */
  lemma GroupingsFind<T, K(!new)>(key: T -> K, a: seq<T>, b: seq<T>, c: seq<T>, k: K)
    ensures Find(key, Upsert(key, Upsert(key, a, b), c), k) == Find(key, Upsert(key, a, Upsert(key, b, c)), k)
       <==> (RepeatedIn(key, b, k) && Last(key, c, k).Some? ==> Last(key, b, k) == Last(key, c, k))
  {
    UpsertFinds(key, a, b, k);
    UpsertFinds(key, Upsert(key, a, b), c, k);
    UpsertFinds(key, a, Upsert(key, b, c), k);
    UpsertLast(key, b, c, k);
    RepeatedIsListed(key, b, k);
  }

  lemma GroupingsList<T, K(!new)>(key: T -> K, a: seq<T>, b: seq<T>, c: seq<T>)
    ensures KeyList(key, Upsert(key, Upsert(key, a, b), c)) == KeyList(key, Upsert(key, a, Upsert(key, b, c)))
  {
    UpsertKeyList(key, a, b);
    UpsertKeyList(key, Upsert(key, a, b), c);
    UpsertKeyList(key, b, c);
    UpsertKeyList(key, a, Upsert(key, b, c));
    AddKeysAssociative(KeyList(key, a), KeyList(key, b), KeyList(key, c));
  }

  /** Whether three lists are merged left or right first matters exactly when the middle one repeats a key
      that the last one sets to something else. */
  lemma UpsertsAssociateExactly<T, K(!new)>(key: T -> K, a: seq<T>, b: seq<T>, c: seq<T>)
    ensures Upsert(key, Upsert(key, a, b), c) == Upsert(key, a, Upsert(key, b, c)) <==> RepetitionsAgree(key, b, c)
  {
    forall k {
      GroupingsFind(key, a, b, c, k);
    }
    if RepetitionsAgree(key, b, c) {
      UpsertConcat(key, a, b, c);
      GroupingsList(key, a, b, c);
      UpsertsDetermined(key, a, b + c, Upsert(key, b, c));
    }
  }

  lemma {:induction false} PutSame<T, K(!new)>(key: T -> K, out: seq<T>, x: T)
    ensures Put(key, out, x) == out <==> Find(key, out, key(x)) == Some(x)
  {
    if out != [] && key(out[0]) != key(x) {
      PutSame(key, out[1..], x);
      assert out == [out[0]] + out[1..];
    }
  }

  /** A leading record counts for nothing exactly when the list sets its key first. */
  lemma LeadingReplaced<T, K(!new)>(key: T -> K, x: T, xs: seq<T>)
    requires xs != []
    ensures Upsert(key, [], [x] + xs) == Upsert(key, [], xs) <==> key(x) == key(xs[0])
  {
    var head, rest := xs[0], xs[1..];
    assert xs == [head] + rest && [x] + xs == [x, head] + rest;
    UpsertConcat(key, [], [head], rest);
    UpsertConcat(key, [], [x, head], rest);
    UpsertConcat(key, [], [x], [head]);
    assert [x, head] == [x] + [head];
    UpsertOne(key, [], x);
    UpsertOne(key, [], head);
    UpsertOne(key, [x], head);
    UpsertMeaning(key, [head], rest);
    UpsertMeaning(key, Put(key, [x], head), rest);
    if key(x) != key(head) {
      assert KeyList(key, Upsert(key, [x, head], rest))[..2] == KeyList(key, [x, head]);
      assert KeyList(key, Upsert(key, [x, head], rest))[..2][0] == key(x);
      assert KeyList(key, Upsert(key, [head], rest))[..1][0] == key(head);
    }
  }

  lemma UpsertOne<T, K(!new)>(key: T -> K, out: seq<T>, x: T)
    ensures Upsert(key, out, [x]) == Put(key, out, x)
  {
    assert [x][..0] == [];
  }

  /** The smallest case: two records of one key in the middle. */
  lemma RepetitionDecides<T, K(!new)>(key: T -> K, x: T, y: T, z: T)
    requires key(x) == key(y) == key(z)
    ensures Upsert(key, Upsert(key, [], [x, y]), [z]) == [z]
    ensures Upsert(key, [], Upsert(key, [x, y], [z])) == [y]
  {
    UpsertPair(key, x, y);
    UpsertPair(key, z, y);
    UpsertOne(key, [y], z);
    UpsertOne(key, [x, y], z);
    assert Put(key, [x, y], z) == [z, y];
  }

  lemma UpsertPair<T, K(!new)>(key: T -> K, x: T, y: T)
    requires key(x) == key(y)
    ensures Upsert(key, [], [x, y]) == [y]
  {
    UpsertConcat(key, [], [x], [y]);
    assert [x] + [y] == [x, y];
    UpsertOne(key, [], x);
    UpsertOne(key, [x], y);
  }

  // ---- upserting a list that grew -------------------------------------------------

  lemma {:induction false} AddKeysPrefix<K>(ks: seq<K>, more: seq<K>)
    ensures ks <= AddKeys(ks, more)
  {
    if more != [] {
      AddKeysPrefix(ks, more[..|more| - 1]);
    }
  }

  lemma {:induction false} AddKeysConcat<K>(ks: seq<K>, b: seq<K>, c: seq<K>)
    ensures AddKeys(ks, b + c) == AddKeys(AddKeys(ks, b), c)
  {
    if c == [] {
      assert b + c == b;
    } else {
      var init, last := c[..|c| - 1], c[|c| - 1];
      AddKeysConcat(ks, b, init);
      assert b + c == (b + init) + [last];
      AddKeysSnoc(ks, b + init, last);
    }
  }

  lemma AddKeysAhead<K>(ks: seq<K>, c: seq<K>, n: nat)
    requires n <= |c|
    ensures AddKeys(ks, c[..n]) <= AddKeys(ks, c)
  {
    assert c == c[..n] + c[n..];
    AddKeysConcat(ks, c[..n], c[n..]);
    AddKeysPrefix(AddKeys(ks, c[..n]), c[n..]);
  }

  function AddKey<K(==)>(ks: seq<K>, k: K): seq<K>
  {
    if k in ks then ks else ks + [k]
  }

  function Longer<K>(a: seq<K>, b: seq<K>): seq<K>
  {
    if |b| <= |a| then a else b
  }

  lemma CatchUpStep<K>(all: seq<K>, started: seq<K>, before: seq<K>, k: K)
    requires started <= all && AddKey(before, k) <= all
    ensures AddKey(Longer(started, before), k) == Longer(started, AddKey(before, k))
  {
    if k in before && |before| <= |started| {
      var i :| 0 <= i < |before| && before[i] == k;
      assert started[i] == all[i] == before[i];
    } else if k !in before && |before| < |started| {
      assert started[|before|] == all[|before|] == AddKey(before, k)[|before|] == k;
    } else if |before| == |started| {
      assert started == all[..|started|] == all[..|before|] == AddKey(before, k)[..|before|] == before;
    }
  }

  /** Started from some of what they will add, the keys add the rest. */
  lemma {:induction false} AddKeysCatchUp<K>(ks: seq<K>, started: seq<K>, c: seq<K>, n: nat)
    requires ks <= started <= AddKeys(ks, c) && n <= |c|
    ensures AddKeys(started, c[..n]) == Longer(started, AddKeys(ks, c[..n]))
    decreases n
  {
    if n == 0 {
      assert c[..0] == [];
    } else {
      AddKeysCatchUp(ks, started, c, n - 1);
      assert c[..n] == c[..n - 1] + [c[n - 1]];
      AddKeysAhead(ks, c, n);
      AddKeysSnoc(ks, c[..n - 1], c[n - 1]);
      AddKeysSnoc(started, c[..n - 1], c[n - 1]);
      CatchUpStep(AddKeys(ks, c), started, AddKeys(ks, c[..n - 1]), c[n - 1]);
    }
  }

  lemma AddKeysAgain<K>(ks: seq<K>, b: seq<K>, c: seq<K>)
    requires forall k :: k in b ==> k in c
    ensures AddKeys(AddKeys(ks, b), c) == AddKeys(ks, c) <==> AddKeys(ks, b) <= AddKeys(ks, c)
  {
    AddKeysPrefix(AddKeys(ks, b), c);
    if AddKeys(ks, b) <= AddKeys(ks, c) {
      AddKeysPrefix(ks, b);
      AddKeysCatchUp(ks, AddKeys(ks, b), c, |c|);
      assert c[..|c|] == c;
    }
  }

  /** Upserting a list after an earlier state of it finds the same records, and leaves the same list exactly when
      the earlier state added its new keys in the order the list does. */
  lemma UpsertAgainExactly<T, K(!new)>(key: T -> K, a: seq<T>, b: seq<T>, c: seq<T>)
    requires forall k :: k in KeyList(key, b) ==> k in KeyList(key, c)
    ensures forall k :: Find(key, Upsert(key, a, b + c), k) == Find(key, Upsert(key, a, c), k)
    ensures Upsert(key, a, b + c) == Upsert(key, a, c)
       <==> AddKeys(KeyList(key, a), KeyList(key, b)) <= AddKeys(KeyList(key, a), KeyList(key, c))
  {
    UpsertConcat(key, a, b, c);
    forall k ensures Find(key, Upsert(key, a, b + c), k) == Find(key, Upsert(key, a, c), k) {
      FindsAgain(key, a, b, c, k);
    }
    UpsertKeyList(key, a, b);
    UpsertKeyList(key, a, c);
    UpsertKeyList(key, Upsert(key, a, b), c);
    AddKeysAgain(KeyList(key, a), KeyList(key, b), KeyList(key, c));
    if KeyList(key, Upsert(key, a, b + c)) == KeyList(key, Upsert(key, a, c)) {
      UpsertsDetermined(key, a, b + c, c);
    }
  }

  /** It did not when it knew only the second of two new keys: that one stays in front. */
  lemma EarlierKeyStaysInFront<T, K(!new)>(key: T -> K, x: T, y: T)
    requires key(x) != key(y)
    ensures Upsert(key, [], [x, y]) == [x, y] && Upsert(key, [], [y] + [x, y]) == [y, x]
  {
    UpsertConcat(key, [], [x], [y]);
    UpsertConcat(key, [], [y], [x, y]);
    UpsertConcat(key, [y], [x], [y]);
    UpsertOne(key, [], x);
    UpsertOne(key, [], y);
    UpsertOne(key, [x], y);
    UpsertOne(key, [y], x);
    UpsertOne(key, [y, x], y);
    assert [x] + [y] == [x, y] && [y] + [x] == [y, x];
  }

  lemma FindsAgain<T, K(!new)>(key: T -> K, a: seq<T>, b: seq<T>, c: seq<T>, k: K)
    requires k in KeyList(key, b) ==> k in KeyList(key, c)
    ensures Find(key, Upsert(key, Upsert(key, a, b), c), k) == Find(key, Upsert(key, a, c), k)
  {
    UpsertFinds(key, a, c, k);
    UpsertFinds(key, a, b, k);
    UpsertFinds(key, Upsert(key, a, b), c, k);
    LastListed(key, b, k);
    LastListed(key, c, k);
  }

  lemma LastListed<T, K(!new)>(key: T -> K, xs: seq<T>, k: K)
    ensures Last(key, xs, k).Some? <==> k in KeyList(key, xs)
  {
    TableMembers(key, xs);
    if k in KeyList(key, xs) {
      var i :| 0 <= i < |xs| && KeyList(key, xs)[i] == k;
      assert xs[i] in xs;
    }
    if k in Table(key, xs) {
      var i :| 0 <= i < |xs| && xs[i] == Table(key, xs)[k];
      assert KeyList(key, xs)[i] == k;
    }
  }

  lemma {:induction false} PutTwice<T, K(!new)>(key: T -> K, out: seq<T>, x: T, y: T)
    requires key(x) == key(y)
    ensures Put(key, Put(key, out, x), y) == Put(key, out, y)
  {
    if out != [] && key(out[0]) != key(x) {
      PutTwice(key, out[1..], x, y);
      assert ([out[0]] + Put(key, out[1..], x))[1..] == Put(key, out[1..], x);
    }
  }
}
