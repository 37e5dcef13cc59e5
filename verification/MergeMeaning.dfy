/** What a merged report lists, by the fields of the two reports' records. */
module MergeMeaning {
  import opened Core
  import opened Text
  import opened Sorting
  import opened Keyed
  import opened Appending
  import opened Reports
  import opened ReportLaws

  // ---- when two records are the same item ------------------------------------------

  predicate AllNulFree(fields: seq<string>)
  {
    forall i :: 0 <= i < |fields| ==> NulFree(fields[i])
  }

  lemma VerdictsIdentified(v: Verdict, w: Verdict)
    requires AllNulFree([v.tr, v.variant, v.item, v.scenario]) && AllNulFree([w.tr, w.variant, w.item, w.scenario])
    ensures VERDICTS.key(v) == VERDICTS.key(w)
       <==> v.tr == w.tr && v.variant == w.variant && v.item == w.item && v.scenario == w.scenario
  {
    var a, b := [v.tr, v.variant, v.item, v.scenario], [w.tr, w.variant, w.item, w.scenario];
    if VERDICTS.key(v) == VERDICTS.key(w) {
      JoinInjective(a, b);
      assert a[0] == b[0] && a[1] == b[1] && a[2] == b[2] && a[3] == b[3];
    }
  }

  lemma MeasurementsIdentified(m: Measurement, n: Measurement)
    requires AllNulFree([m.tr, m.variant, m.name, m.percentile, m.scenario])
    requires AllNulFree([n.tr, n.variant, n.name, n.percentile, n.scenario])
    ensures MEASUREMENTS.key(m) == MEASUREMENTS.key(n)
       <==> m.tr == n.tr && m.variant == n.variant && m.name == n.name && m.percentile == n.percentile
            && m.scenario == n.scenario
  {
    var a, b := [m.tr, m.variant, m.name, m.percentile, m.scenario], [n.tr, n.variant, n.name, n.percentile, n.scenario];
    if MEASUREMENTS.key(m) == MEASUREMENTS.key(n) {
      JoinInjective(a, b);
      assert a[0] == b[0] && a[1] == b[1] && a[2] == b[2] && a[3] == b[3] && a[4] == b[4];
    }
  }

  lemma ExecutionsIdentified(e: RunExecution, f: RunExecution)
    requires AllNulFree([e.tr, e.variant, e.scenario]) && AllNulFree([f.tr, f.variant, f.scenario])
    ensures EXECUTIONS.key(e) == EXECUTIONS.key(f) <==> e.tr == f.tr && e.variant == f.variant && e.scenario == f.scenario
  {
    var a, b := [e.tr, e.variant, e.scenario], [f.tr, f.variant, f.scenario];
    if EXECUTIONS.key(e) == EXECUTIONS.key(f) {
      JoinInjective(a, b);
      assert a[0] == b[0] && a[1] == b[1] && a[2] == b[2];
    }
  }

  lemma IncidentsIdentified(i: Incident, j: Incident)
    requires i.id == "" <==> j.id == ""
    requires AllNulFree([i.kind, i.tr, i.message]) && AllNulFree([j.kind, j.tr, j.message])
    ensures INCIDENT_KEY(i) == INCIDENT_KEY(j)
       <==> i.id == j.id && (i.id == "" ==> i.kind == j.kind && i.tr == j.tr && i.message == j.message)
  {
    var a, b := [i.kind, i.tr, i.message], [j.kind, j.tr, j.message];
    if INCIDENT_KEY(i) == INCIDENT_KEY(j) && i.id == "" {
      JoinInjective(a, b);
      assert a[0] == b[0] && a[1] == b[1] && a[2] == b[2];
    }
  }

  // ---- in which order --------------------------------------------------------------

  /** `a` decides, and `rest` when it is the same on both sides. */
  predicate Before(a: string, b: string, rest: bool)
  {
    Less(a, b) || (a == b && rest)
  }

  lemma RowLessCons(x: string, xs: seq<string>, y: string, ys: seq<string>)
    ensures RowLess([x] + xs, [y] + ys) <==> Before(x, y, RowLess(xs, ys))
  {
    assert ([x] + xs)[1..] == xs && ([y] + ys)[1..] == ys;
  }

  lemma RowLessOne(x: string, y: string)
    ensures RowLess([x], [y]) <==> Less(x, y)
  {
  }

  lemma RowLessThree(a: seq<string>, b: seq<string>)
    requires |a| == |b| == 3
    ensures RowLess(a, b) <==> Before(a[0], b[0], Before(a[1], b[1], Less(a[2], b[2])))
  {
    assert a == [a[0]] + ([a[1]] + [a[2]]) && b == [b[0]] + ([b[1]] + [b[2]]);
    RowLessCons(a[0], [a[1]] + [a[2]], b[0], [b[1]] + [b[2]]);
    RowLessCons(a[1], [a[2]], b[1], [b[2]]);
    RowLessOne(a[2], b[2]);
  }

  lemma RowLessNext(a: seq<string>, b: seq<string>)
    requires a != [] && b != []
    ensures RowLess(a, b) <==> Before(a[0], b[0], RowLess(a[1..], b[1..]))
  {
  }

  lemma RankedAt<T>(ix: Index<T>, base: seq<T>, next: seq<T>, merged: seq<T>, i: nat, j: nat)
    requires RightBiasedUnion(ix, base, next, merged) && i < j < |merged|
    ensures RowLess(ix.rank(merged[i]), ix.rank(merged[j]))
  {
  }

  /** Verdicts are listed by TR, variant, scenario and item. */
  lemma VerdictsInOrder(base: Report, next: Report, i: nat, j: nat)
    requires i < j < |Merged(base, next).verdicts|
    ensures var v, w := Merged(base, next).verdicts[i], Merged(base, next).verdicts[j];
            Before(v.tr, w.tr, Before(v.variant, w.variant, Before(v.scenario, w.scenario, Less(v.item, w.item))))
  {
    var vs := Merged(base, next).verdicts;
    MergedListsAreUnions(base, next);
    RankedAt(VERDICTS, base.verdicts, next.verdicts, vs, i, j);
    VerdictOrder(vs[i], vs[j]);
  }

  /** Measurements are listed by TR, variant, scenario, name and percentile. */
  lemma MeasurementsInOrder(base: Report, next: Report, i: nat, j: nat)
    requires i < j < |Merged(base, next).measurements|
    ensures var m, n := Merged(base, next).measurements[i], Merged(base, next).measurements[j];
            Before(m.tr, n.tr, Before(m.variant, n.variant, Before(m.scenario, n.scenario,
              Before(m.name, n.name, Less(m.percentile, n.percentile)))))
  {
    var ms := Merged(base, next).measurements;
    MergedListsAreUnions(base, next);
    RankedAt(MEASUREMENTS, base.measurements, next.measurements, ms, i, j);
    MeasurementOrder(ms[i], ms[j]);
  }

  /** Executions are listed by TR, variant and scenario. */
  lemma ExecutionsInOrder(base: Report, next: Report, i: nat, j: nat)
    requires i < j < |Merged(base, next).executions|
    ensures var e, f := Merged(base, next).executions[i], Merged(base, next).executions[j];
            Before(e.tr, f.tr, Before(e.variant, f.variant, Less(e.scenario, f.scenario)))
  {
    var es := Merged(base, next).executions;
    MergedListsAreUnions(base, next);
    RankedAt(EXECUTIONS, base.executions, next.executions, es, i, j);
    ExecutionOrder(es[i], es[j]);
  }

  lemma ExecutionOrder(e: RunExecution, f: RunExecution)
    ensures RowLess(EXECUTIONS.rank(e), EXECUTIONS.rank(f)) <==>
            Before(e.tr, f.tr, Before(e.variant, f.variant, Less(e.scenario, f.scenario)))
  {
    RowLessThree(EXECUTIONS.rank(e), EXECUTIONS.rank(f));
  }

  lemma VerdictOrder(v: Verdict, w: Verdict)
    ensures RowLess(VERDICTS.rank(v), VERDICTS.rank(w)) <==>
            Before(v.tr, w.tr, Before(v.variant, w.variant, Before(v.scenario, w.scenario, Less(v.item, w.item))))
  {
    var a, b := VERDICTS.rank(v), VERDICTS.rank(w);
    RowLessNext(a, b);
    RowLessThree(a[1..], b[1..]);
  }

  lemma MeasurementOrder(m: Measurement, n: Measurement)
    ensures RowLess(MEASUREMENTS.rank(m), MEASUREMENTS.rank(n)) <==>
            Before(m.tr, n.tr, Before(m.variant, n.variant, Before(m.scenario, n.scenario,
              Before(m.name, n.name, Less(m.percentile, n.percentile)))))
  {
    var a, b := MEASUREMENTS.rank(m), MEASUREMENTS.rank(n);
    RowLessNext(a, b);
    RowLessNext(a[1..], b[1..]);
    RowLessThree(a[1..][1..], b[1..][1..]);
  }

  // ---- incidents: the first of each key --------------------------------------------

  /** Nothing listed before `x` has its key. */
  ghost predicate IsFirst<T, K>(key: T -> K, xs: seq<T>, x: T)
  {
    exists i :: 0 <= i < |xs| && xs[i] == x && forall j :: 0 <= j < i ==> key(xs[j]) != key(x)
  }

  lemma IsFirstSnoc<T, K(!new)>(key: T -> K, xs: seq<T>, y: T, x: T)
    ensures IsFirst(key, xs + [y], x) <==>
            IsFirst(key, xs, x) || (x == y && forall z :: z in xs ==> key(z) != key(x))
  {
    var all := xs + [y];
    if IsFirst(key, xs, x) {
      var i :| 0 <= i < |xs| && xs[i] == x && forall j :: 0 <= j < i ==> key(xs[j]) != key(x);
      assert all[i] == x;
    }
    if x == y && forall z :: z in xs ==> key(z) != key(x) {
      assert all[|xs|] == x;
    }
    if IsFirst(key, all, x) {
      var i :| 0 <= i < |all| && all[i] == x && forall j :: 0 <= j < i ==> key(all[j]) != key(x);
      assert forall j :: 0 <= j < |xs| ==> all[j] == xs[j];
      if i < |xs| {
        assert xs[i] == x && forall j :: 0 <= j < i ==> key(xs[j]) != key(x);
      }
    }
  }

  lemma {:induction false} KeepFirstHoldsFirst<T(!new)>(key: T -> string, xs: seq<T>, x: T)
    ensures x in KeepFirst(key, xs) <==> IsFirst(key, xs, x)
  {
    if xs != [] {
      var init, last := xs[..|xs| - 1], xs[|xs| - 1];
      assert xs == init + [last];
      KeepFirstHoldsFirst(key, init, x);
      KeepFirstSnoc(key, init, last);
      IsFirstSnoc(key, init, last, x);
    }
  }

  /** Merged incidents are the first of each key, those of `base` before those of `next`. */
  lemma MergedIncidentsMeaning(base: Report, next: Report)
    ensures forall i :: i in Merged(base, next).incidents <==> IsFirst(INCIDENT_KEY, base.incidents + next.incidents, i)
  {
    forall i ensures i in Merged(base, next).incidents <==> IsFirst(INCIDENT_KEY, base.incidents + next.incidents, i) {
      KeepFirstHoldsFirst(INCIDENT_KEY, base.incidents + next.incidents, i);
    }
  }

  // ---- storage selections ----------------------------------------------------------

  lemma {:induction false} FindsFirst<T(!new), K(!new)>(key: T -> K, xs: seq<T>, x: T)
    ensures Find(key, xs, key(x)) == Some(x) <==> IsFirst(key, xs, x)
    ensures Find(key, xs, key(x)) == None <==> forall z :: z in xs ==> key(z) != key(x)
  {
    if xs != [] {
      FindsFirst(key, xs[1..], x);
      if key(xs[0]) == key(x) {
        assert x == xs[0] ==> IsFirst(key, xs, x);
      } else if IsFirst(key, xs[1..], x) {
        var i :| 0 <= i < |xs[1..]| && xs[1..][i] == x && forall j :: 0 <= j < i ==> key(xs[1..][j]) != key(x);
        assert xs[i + 1] == x;
      }
      if IsFirst(key, xs, x) && key(xs[0]) != key(x) {
        var i :| 0 <= i < |xs| && xs[i] == x && forall j :: 0 <= j < i ==> key(xs[j]) != key(x);
        FirstInTail(key, xs, x, i);
      }
    }
  }

  lemma FirstInTail<T, K>(key: T -> K, xs: seq<T>, x: T, i: int)
    requires 0 < i < |xs| && xs[i] == x && forall j :: 0 <= j < i ==> key(xs[j]) != key(x)
    ensures IsFirst(key, xs[1..], x)
  {
    assert xs[1..][i - 1] == x;
    assert forall j :: 0 <= j < i - 1 ==> xs[1..][j] == xs[j + 1];
  }

  predicate SameExecution(s: StorageSelection, t: StorageSelection)
  {
    s.tr == t.tr && s.variant == t.variant && s.scenario == t.scenario
  }

  lemma OverlaidSelection(base: seq<StorageSelection>, next: seq<StorageSelection>, s: StorageSelection)
    ensures IsFirst(STORAGE_KEY, Upsert(STORAGE_KEY, base, next), s) <==>
            if exists t :: t in next && SameExecution(t, s) then IsLast(STORAGE_KEY, next, s)
            else IsFirst(STORAGE_KEY, base, s)
  {
    FindsFirst(STORAGE_KEY, Upsert(STORAGE_KEY, base, next), s);
    FindsFirst(STORAGE_KEY, base, s);
    UpsertFinds(STORAGE_KEY, base, next, STORAGE_KEY(s));
    TableHoldsLast(STORAGE_KEY, next, s);
    TableMembers(STORAGE_KEY, next);
  }

  /** An execution's selection is the last one `next` lists for it, and the first one of `base` where it lists none. */
  lemma MergedSelection(base: Report, next: Report, s: StorageSelection)
    ensures IsFirst(STORAGE_KEY, Merged(base, next).storage, s) <==>
            if exists t :: t in next.storage && SameExecution(t, s) then IsLast(STORAGE_KEY, next.storage, s)
            else IsFirst(STORAGE_KEY, base.storage, s)
    ensures forall t :: STORAGE_KEY(t) == STORAGE_KEY(s) <==> SameExecution(t, s)
  {
    OverlaidSelection(base.storage, next.storage, s);
    assert Merged(base, next).storage == Upsert(STORAGE_KEY, base.storage, next.storage);
  }

  // ---- run parts -------------------------------------------------------------------

  /** A report without parts stands for the one its run id names. */
  ghost function Brought(r: Report): seq<RunPart>
  {
    if r.parts != [] || r.runId == "" then r.parts
    else [RunPart(r.runId, "", if r.status in {Unset, Complete} then Complete else r.status, "", "")]
  }

  /** Nothing later in the list has its id. */
  ghost predicate LastPart(parts: seq<RunPart>, p: RunPart)
  {
    exists i :: 0 <= i < |parts| && parts[i] == p && forall j :: i < j < |parts| ==> parts[j].partId != p.partId
  }

  lemma LastPartSnoc(parts: seq<RunPart>, q: RunPart, p: RunPart)
    ensures LastPart(parts + [q], p) <==> p == q || (q.partId != p.partId && LastPart(parts, p))
  {
    var all := parts + [q];
    if p == q {
      assert all[|parts|] == p;
    }
    if q.partId != p.partId && LastPart(parts, p) {
      var i :| 0 <= i < |parts| && parts[i] == p && forall j :: i < j < |parts| ==> parts[j].partId != p.partId;
      assert all[i] == p;
    }
    if LastPart(all, p) && p != q {
      var i :| 0 <= i < |all| && all[i] == p && forall j :: i < j < |all| ==> all[j].partId != p.partId;
      assert parts[i] == p && all[|parts|] == q;
      assert forall j :: i < j < |parts| ==> all[j] == parts[j];
    }
  }

  lemma {:induction false} ComposedHoldsLast(parts: seq<RunPart>, p: RunPart)
    ensures p in Composed(parts) <==> p.partId != "" && LastPart(parts, p)
  {
    if parts != [] {
      var init, last := parts[..|parts| - 1], parts[|parts| - 1];
      assert parts == init + [last];
      ComposedHoldsLast(init, p);
      ComposedSnoc(init, last);
      LastPartSnoc(init, last, p);
      if last.partId != "" {
        PutMembers(Composed(init), last, p);
      }
    }
  }

  lemma {:induction false} PutMembers(parts: seq<RunPart>, q: RunPart, p: RunPart)
    requires Distinct(KeyList(PART_KEY, parts))
    ensures p in Put(PART_KEY, parts, q) <==> p == q || (p in parts && p.partId != q.partId)
  {
    if parts != [] {
      var first, rest := parts[0], parts[1..];
      assert parts == [first] + rest;
      assert KeyList(PART_KEY, parts) == [PART_KEY(first)] + KeyList(PART_KEY, rest);
      DistinctTail(PART_KEY(first), KeyList(PART_KEY, rest));
      PutMembers(rest, q, p);
      forall r | r in rest ensures r.partId != first.partId {
        OtherId(parts, r);
      }
    }
  }

  lemma DistinctTail(id: string, ids: seq<string>)
    requires Distinct([id] + ids)
    ensures Distinct(ids)
  {
    assert ([id] + ids)[1..] == ids;
  }

  lemma OtherId(parts: seq<RunPart>, r: RunPart)
    requires parts != [] && Distinct(KeyList(PART_KEY, parts)) && r in parts[1..]
    ensures r.partId != parts[0].partId
  {
    var i :| 0 <= i < |parts[1..]| && parts[1..][i] == r;
    assert parts[i + 1] == r;
    assert KeyList(PART_KEY, parts)[0] == parts[0].partId && KeyList(PART_KEY, parts)[i + 1] == r.partId;
  }

  lemma ListedParts(base: Report, next: Report)
    ensures var all := Brought(base) + Brought(next);
            && (forall p :: p in MergedParts(base, next) <==> p.partId != "" && LastPart(all, p))
            && (MergedParts(base, next) == [] <==> forall p :: p in all ==> p.partId == "")
  {
    var all := Brought(base) + Brought(next);
    assert all == PartsOf(base) + PartsOf(next);
    forall p ensures p in Composed(all) <==> p.partId != "" && LastPart(all, p) {
      ComposedHoldsLast(all, p);
    }
    forall q | q in all && q.partId != "" ensures Composed(all) != [] {
      LastPartExists(all, q);
      var p: RunPart :| p.partId == q.partId && LastPart(all, p);
      assert p in Composed(all);
    }
    if Composed(all) != [] {
      var p := Composed(all)[0];
      assert p in Composed(all);
      assert LastPart(all, p) && p in all;
    }
  }

  /** Of each id that some report names the last part is listed; if none is named, one for the base's run. */
  lemma MergedPartsMeaning(base: Report, next: Report)
    ensures var parts, all := Merged(base, next).parts, Brought(base) + Brought(next);
            if exists p :: p in all && p.partId != "" then
              forall p :: p in parts <==> p.partId != "" && LastPart(all, p)
            else if base.runId == "" then parts == []
            else parts == [RunPart(base.runId, "initial", if next.status == Unset then Complete else next.status, "", "")]
  {
    ListedParts(base, next);
    assert Assembled(base, next).parts == MergedParts(base, next);
    assert Merged(base, next).parts == if MergedParts(base, next) != [] || base.runId == "" then MergedParts(base, next)
      else [RunPart(base.runId, "initial", if next.status == Unset then Complete else next.status, "", "")];
  }

  lemma {:induction false} LastPartExists(parts: seq<RunPart>, q: RunPart)
    requires q in parts
    ensures exists p: RunPart :: p.partId == q.partId && LastPart(parts, p)
  {
    var init, last := parts[..|parts| - 1], parts[|parts| - 1];
    assert parts == init + [last];
    LastPartSnoc(init, last, last);
    if last.partId != q.partId {
      LastPartExists(init, q);
      var p: RunPart :| p.partId == q.partId && LastPart(init, p);
      LastPartSnoc(init, last, p);
    }
  }
}
