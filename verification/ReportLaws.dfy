/** What merging promises: canonical right-biased lists, associativity, and permanent blockers. */
module ReportLaws {
  import opened Core
  import opened Text
  import opened Keyed
  import opened Appending
  import opened Reports
  import Levels

  // ---- canonical lists ---------------------------------------------------------

  /** `merged` lists, in report order and once per key, the last record `base` then `next` give that key. */
  ghost predicate RightBiasedUnion<T>(ix: Index<T>, base: seq<T>, next: seq<T>, merged: seq<T>)
  {
    Lists(ix, Table(ix.key, base) + Table(ix.key, next), merged)
  }

  lemma MergedListsAreUnions(base: Report, next: Report)
    ensures RightBiasedUnion(VERDICTS, base.verdicts, next.verdicts, Merged(base, next).verdicts)
    ensures RightBiasedUnion(MEASUREMENTS, base.measurements, next.measurements, Merged(base, next).measurements)
    ensures RightBiasedUnion(EXECUTIONS, base.executions, next.executions, Merged(base, next).executions)
  {
    IndexesCoherent();
    DedupeLists(VERDICTS, base.verdicts + next.verdicts);
    DedupeLists(MEASUREMENTS, base.measurements + next.measurements);
    DedupeLists(EXECUTIONS, base.executions + next.executions);
    TableConcat(VERDICTS.key, base.verdicts, next.verdicts);
    TableConcat(MEASUREMENTS.key, base.measurements, next.measurements);
    TableConcat(EXECUTIONS.key, base.executions, next.executions);
  }

  lemma UnionHoldsLast<T(!new)>(ix: Index<T>, base: seq<T>, next: seq<T>, merged: seq<T>)
    requires RightBiasedUnion(ix, base, next, merged)
    ensures forall x :: x in merged <==> IsLast(ix.key, base + next, x)
  {
    var m := Table(ix.key, base + next);
    TableConcat(ix.key, base, next);
    TableMembers(ix.key, base + next);
    forall x ensures x in merged <==> IsLast(ix.key, base + next, x) {
      TableHoldsLast(ix.key, base + next, x);
      if ix.key(x) in m && m[ix.key(x)] == x {
        assert m[ix.key(x)] in merged;
      }
    }
  }

  /** A merged report lists exactly the records nothing listed after them replaces, `base`'s before `next`'s. */
  lemma MergedHoldsLast(base: Report, next: Report)
    ensures forall v :: v in Merged(base, next).verdicts <==> IsLast(VERDICTS.key, base.verdicts + next.verdicts, v)
    ensures forall m :: m in Merged(base, next).measurements <==>
              IsLast(MEASUREMENTS.key, base.measurements + next.measurements, m)
    ensures forall e :: e in Merged(base, next).executions <==>
              IsLast(EXECUTIONS.key, base.executions + next.executions, e)
  {
    MergedListsAreUnions(base, next);
    UnionHoldsLast(VERDICTS, base.verdicts, next.verdicts, Merged(base, next).verdicts);
    UnionHoldsLast(MEASUREMENTS, base.measurements, next.measurements, Merged(base, next).measurements);
    UnionHoldsLast(EXECUTIONS, base.executions, next.executions, Merged(base, next).executions);
  }

  predicate PlainVerdict(v: Verdict)
  {
    NulFree(v.tr) && NulFree(v.variant) && NulFree(v.scenario) && NulFree(v.item)
  }

  lemma VerdictFields(v: Verdict, w: Verdict)
    requires PlainVerdict(v) && PlainVerdict(w) && VERDICTS.key(v) == VERDICTS.key(w)
    ensures v.tr == w.tr && v.variant == w.variant && v.item == w.item && v.scenario == w.scenario
  {
    var a, b := [v.tr, v.variant, v.item, v.scenario], [w.tr, w.variant, w.item, w.scenario];
    JoinInjective(a, b);
    assert a[0] == b[0] && a[1] == b[1] && a[2] == b[2] && a[3] == b[3];
  }

  lemma UnionMembers<T>(ix: Index<T>, base: seq<T>, next: seq<T>, merged: seq<T>)
    requires RightBiasedUnion(ix, base, next, merged)
    ensures forall x :: x in merged ==> x in base || x in next
    ensures forall x :: x in base || x in next ==> exists y :: y in merged && ix.key(y) == ix.key(x)
    ensures DistinctKeys(ix.key, merged)
  {
    TableMembers(ix.key, base);
    TableMembers(ix.key, next);
    var m := Table(ix.key, base) + Table(ix.key, next);
    forall x | x in base || x in next ensures exists y :: y in merged && ix.key(y) == ix.key(x) {
      assert m[ix.key(x)] in merged;
    }
    forall x | x in merged ensures x in base || x in next {
      assert m[ix.key(x)] == x;
    }
  }

  /** Everything in a merged report except its run parts and storage selections. */
  ghost predicate SameResults(a: Report, b: Report)
  {
    && a.runId == b.runId && a.status == b.status && a.health == b.health && a.certifiable == b.certifiable
    && a.reason == b.reason && a.schema == b.schema && a.commit == b.commit
    && a.verdicts == b.verdicts && a.measurements == b.measurements && a.executions == b.executions
    && a.incidents == b.incidents && a.levels == b.levels && a.summary == b.summary
  }

  /** The derived fields depend only on the lists and on what the later report says about the run. */
  lemma RefreshedAgree(x: Report, y: Report)
    requires x.runId == y.runId && x.reason == y.reason && x.schema == y.schema && x.commit == y.commit
    requires x.status == y.status || {x.status, y.status} <= {Unset, Complete}
    requires x.verdicts == y.verdicts && x.measurements == y.measurements && x.executions == y.executions
    requires x.incidents == y.incidents && x.levels == y.levels && x.summary == y.summary
    ensures SameResults(Refreshed(x), Refreshed(y))
  {
    assert x.status in {x.status, y.status} && y.status in {x.status, y.status};
  }

  /** Two merges agree when their lists do. */
  lemma MergesAgree(a: Report, b: Report, c: Report, d: Report)
    requires a.runId == c.runId && b.reason == d.reason
    requires b.status == d.status || {b.status, d.status} <= {Unset, Complete}
    requires (if a.schema == "" then b.schema else a.schema) == (if c.schema == "" then d.schema else c.schema)
    requires (if a.commit == "" then b.commit else a.commit) == (if c.commit == "" then d.commit else c.commit)
    requires MergedVerdicts(a, b) == MergedVerdicts(c, d)
    requires MergedMeasurements(a, b) == MergedMeasurements(c, d)
    requires MergedExecutions(a, b) == MergedExecutions(c, d)
    requires MergedIncidents(a, b) == MergedIncidents(c, d)
    ensures SameResults(Merged(a, b), Merged(c, d))
  {
    RefreshedAgree(Assembled(a, b), Assembled(c, d));
  }

  lemma VerdictsAssociate(a: Report, b: Report, c: Report)
    ensures MergedVerdicts(Merged(a, b), c) == MergedVerdicts(a, Merged(b, c))
  {
    IndexesCoherent();
    MergeAssociative(VERDICTS, a.verdicts, b.verdicts, c.verdicts);
  }

  lemma MeasurementsAssociate(a: Report, b: Report, c: Report)
    ensures MergedMeasurements(Merged(a, b), c) == MergedMeasurements(a, Merged(b, c))
  {
    IndexesCoherent();
    MergeAssociative(MEASUREMENTS, a.measurements, b.measurements, c.measurements);
  }

  lemma ExecutionsAssociate(a: Report, b: Report, c: Report)
    ensures MergedExecutions(Merged(a, b), c) == MergedExecutions(a, Merged(b, c))
  {
    IndexesCoherent();
    MergeAssociative(EXECUTIONS, a.executions, b.executions, c.executions);
  }

  /** Grouping does not decide whether merging succeeds: that is about the commits only. */
  lemma MergeableEitherWay(a: Report, b: Report, c: Report)
    ensures Mergeable(a, b) && Mergeable(Merged(a, b), c) <==> Mergeable(b, c) && Mergeable(a, Merged(b, c))
  {
  }

  /** Grouping does not decide any result either. */
  lemma ResultsAssociate(a: Report, b: Report, c: Report)
    requires Mergeable(a, b) && Mergeable(b, c)
    ensures SameResults(Merged(Merged(a, b), c), Merged(a, Merged(b, c)))
  {
    VerdictsAssociate(a, b, c);
    MeasurementsAssociate(a, b, c);
    ExecutionsAssociate(a, b, c);
    KeepFirstAssociative(INCIDENT_KEY, a.incidents, b.incidents, c.incidents);
    MergesAgree(Merged(a, b), c, a, Merged(b, c));
  }

  // ---- grouping: storage selections ------------------------------------------------

  /** The storage selections of the two groupings agree exactly when no selection repeated in the middle report
      is set to something else by the last one. */
  lemma StorageAssociatesExactly(a: Report, b: Report, c: Report)
    ensures Merged(Merged(a, b), c).storage == Merged(a, Merged(b, c)).storage
       <==> RepetitionsAgree(STORAGE_KEY, b.storage, c.storage)
  {
    UpsertsAssociateExactly(STORAGE_KEY, a.storage, b.storage, c.storage);
  }

  /** They differ when the middle report selects twice for one execution and the last one selects anew. */
  lemma RepeatedStorageDiffers(a: Report, b: Report, c: Report, x: StorageSelection, y: StorageSelection, z: StorageSelection)
    requires STORAGE_KEY(x) == STORAGE_KEY(y) == STORAGE_KEY(z) && y != z
    requires a.storage == [] && b.storage == [x, y] && c.storage == [z]
    ensures Merged(Merged(a, b), c).storage == [z] && Merged(a, Merged(b, c)).storage == [y]
  {
    RepetitionDecides(STORAGE_KEY, x, y, z);
  }

  // ---- grouping: run parts ---------------------------------------------------------

  /** What a report brings into the composition of a merge: its named parts, its run id and its status. */
  datatype Share = Share(runId: string, parts: seq<RunPart>, status: RunStatus)

  function ShareOf(r: Report): Share
  {
    Share(r.runId, Named(PartsOf(r)), if r.status == Unset then Complete else r.status)
  }

  function Deduped(parts: seq<RunPart>): seq<RunPart>
  {
    Upsert(PART_KEY, [], parts)
  }

  /** A merge inserts a part for its base when neither report names one. */
  predicate Inserts(x: Share, y: Share)
  {
    x.parts == [] && y.parts == [] && x.runId != ""
  }

  function Inserted(x: Share, y: Share): RunPart
  {
    RunPart(x.runId, "initial", y.status, "", "")
  }

  function Joined(x: Share, y: Share): Share
  {
    Share(x.runId, if Inserts(x, y) then [Inserted(x, y)] else Deduped(x.parts + y.parts), y.status)
  }

  /** When the groupings list the same parts. A part inserted in an inner merge counts as a part of it, so it must
      be overwritten at once, be what the outer merge would insert, or be there already. */
  predicate PartsAgree(x: Share, y: Share, z: Share)
  {
    if Inserts(x, y) then
      if z.parts != [] then z.parts[0].partId == x.runId
      else y.status == z.status && (y.runId == "" || y.runId == x.runId)
    else Inserts(y, z) ==> Last(PART_KEY, x.parts, y.runId) == Some(Inserted(y, z))
  }

  lemma {:induction false} NamedConcat(xs: seq<RunPart>, ys: seq<RunPart>)
    ensures Named(xs + ys) == Named(xs) + Named(ys)
  {
    if ys == [] {
      assert xs + ys == xs;
    } else {
      NamedConcat(xs, ys[..|ys| - 1]);
      assert (xs + ys)[..|xs + ys| - 1] == xs + ys[..|ys| - 1];
    }
  }

  predicate AllNamed(parts: seq<RunPart>)
  {
    forall p :: p in parts ==> p.partId != ""
  }

  lemma {:induction false} NamedAreNamed(parts: seq<RunPart>)
    ensures AllNamed(Named(parts))
    ensures AllNamed(parts) ==> Named(parts) == parts
  {
    if parts != [] {
      NamedAreNamed(parts[..|parts| - 1]);
      assert parts == parts[..|parts| - 1] + [parts[|parts| - 1]];
    }
  }

  lemma {:induction false} PutNamed(parts: seq<RunPart>, p: RunPart)
    requires AllNamed(parts) && p.partId != ""
    ensures AllNamed(Put(PART_KEY, parts, p)) && Put(PART_KEY, parts, p) != []
  {
    if parts != [] && parts[0].partId != p.partId {
      PutNamed(parts[1..], p);
    }
  }

  lemma {:induction false} DedupedNamed(parts: seq<RunPart>)
    requires AllNamed(parts)
    ensures AllNamed(Deduped(parts)) && (Deduped(parts) == [] <==> parts == [])
  {
    if parts != [] {
      DedupedNamed(parts[..|parts| - 1]);
      assert parts[|parts| - 1] in parts;
      PutNamed(Deduped(parts[..|parts| - 1]), parts[|parts| - 1]);
    }
  }

  lemma MergedPartsAre(a: Report, b: Report)
    ensures MergedParts(a, b) == Deduped(ShareOf(a).parts + ShareOf(b).parts)
    ensures AllNamed(MergedParts(a, b))
    ensures MergedParts(a, b) == [] <==> ShareOf(a).parts == [] && ShareOf(b).parts == []
  {
    NamedConcat(PartsOf(a), PartsOf(b));
    NamedAreNamed(PartsOf(a) + PartsOf(b));
    DedupedNamed(Named(PartsOf(a) + PartsOf(b)));
  }

  /** Refreshing inserts a part into a report without any. */
  lemma RefreshedShare(r: Report)
    requires AllNamed(r.parts)
    ensures var status := if r.status == Unset then Complete else r.status;
            var parts := if r.parts == [] && r.runId != "" then [RunPart(r.runId, "initial", status, "", "")] else r.parts;
            Refreshed(r).parts == parts && ShareOf(Refreshed(r)) == Share(r.runId, parts, status)
  {
    NamedAreNamed(Refreshed(r).parts);
  }

  lemma MergedShare(a: Report, b: Report)
    ensures ShareOf(Merged(a, b)) == Joined(ShareOf(a), ShareOf(b))
    ensures Merged(a, b).parts == Joined(ShareOf(a), ShareOf(b)).parts
  {
    MergedPartsAre(a, b);
    RefreshedShare(Assembled(a, b));
  }

  lemma DedupedTwice(parts: seq<RunPart>)
    ensures Deduped(Deduped(parts)) == Deduped(parts)
  {
    UpsertAssociative(PART_KEY, parts, [], []);
    assert Deduped(parts) + [] == Deduped(parts) && parts + [] == parts;
  }

  /** The left inner merge inserts a part. */
  lemma LeftInsertion(x: Share, y: Share, z: Share)
    requires Inserts(x, y)
    ensures Joined(Joined(x, y), z).parts == Joined(x, Joined(y, z)).parts <==> PartsAgree(x, y, z)
  {
    var p := Inserted(x, y);
    if z.parts != [] {
      assert y.parts + z.parts == z.parts && x.parts + Deduped(z.parts) == Deduped(z.parts);
      DedupedTwice(z.parts);
      UpsertMeaning(PART_KEY, [], z.parts);
      NonEmptyDeduped(z.parts);
      LeadingReplaced(PART_KEY, p, z.parts);
    } else {
      assert [p] + z.parts == [p];
      UpsertOne(PART_KEY, [], p);
      UpsertOne(PART_KEY, [], Inserted(y, z));
      assert x.parts + [Inserted(y, z)] == [Inserted(y, z)];
    }
  }

  lemma {:induction false} NonEmptyDeduped(parts: seq<RunPart>)
    ensures Deduped(parts) == [] <==> parts == []
  {
    if parts != [] {
      NonEmptyDeduped(parts[..|parts| - 1]);
    }
  }

  /** Only the right inner merge inserts a part. */
  lemma RightInsertion(x: Share, y: Share, z: Share)
    requires !Inserts(x, y) && Inserts(y, z)
    ensures Joined(Joined(x, y), z).parts == Joined(x, Joined(y, z)).parts <==> PartsAgree(x, y, z)
  {
    var q := Inserted(y, z);
    assert x.parts + y.parts == x.parts && Deduped(x.parts) + z.parts == Deduped(x.parts);
    DedupedTwice(x.parts);
    NonEmptyDeduped(x.parts);
    UpsertConcat(PART_KEY, [], x.parts, [q]);
    UpsertOne(PART_KEY, Deduped(x.parts), q);
    PutSame(PART_KEY, Deduped(x.parts), q);
    UpsertFinds(PART_KEY, [], x.parts, y.runId);
  }

  /** No inner merge inserts a part. */
  lemma NoInsertion(x: Share, y: Share, z: Share)
    requires !Inserts(x, y) && !Inserts(y, z)
    ensures Joined(Joined(x, y), z).parts == Joined(x, Joined(y, z)).parts
  {
    UpsertAssociative(PART_KEY, x.parts, y.parts, z.parts);
    NonEmptyDeduped(x.parts + y.parts);
    NonEmptyDeduped(y.parts + z.parts);
  }

  /** The run parts of the two groupings agree exactly when no part inserted in an inner merge sticks out. */
  lemma PartsAssociateExactly(a: Report, b: Report, c: Report)
    ensures Merged(Merged(a, b), c).parts == Merged(a, Merged(b, c)).parts
       <==> PartsAgree(ShareOf(a), ShareOf(b), ShareOf(c))
  {
    MergedShare(a, b);
    MergedShare(b, c);
    MergedShare(Merged(a, b), c);
    MergedShare(a, Merged(b, c));
    JoinsAgreeExactly(ShareOf(a), ShareOf(b), ShareOf(c));
  }

  lemma JoinsAgreeExactly(x: Share, y: Share, z: Share)
    ensures Joined(Joined(x, y), z).parts == Joined(x, Joined(y, z)).parts <==> PartsAgree(x, y, z)
  {
    if Inserts(x, y) {
      LeftInsertion(x, y, z);
    } else if Inserts(y, z) {
      RightInsertion(x, y, z);
    } else {
      NoInsertion(x, y, z);
    }
  }

  /** They differ when the first two reports have parts but name none, and the last one names another part: the
      part the merge of the first two inserts is listed in one grouping only. */
  lemma InsertedPartDiffers(a: Report, b: Report, c: Report, unnamed: RunPart, p: RunPart)
    requires a.runId != "" && a.parts == b.parts == [unnamed] && unnamed.partId == ""
    requires c.parts == [p] && p.partId !in {"", a.runId}
    ensures Merged(Merged(a, b), c).parts == [Inserted(ShareOf(a), ShareOf(b)), p]
    ensures Merged(a, Merged(b, c)).parts == [p]
  {
    MergedShare(a, b);
    MergedShare(b, c);
    MergedShare(Merged(a, b), c);
    MergedShare(a, Merged(b, c));
    OneNamed(unnamed);
    OneNamed(p);
    InsertedShareDiffers(ShareOf(a), ShareOf(b), ShareOf(c), p);
  }

  lemma OneNamed(p: RunPart)
    ensures Named([p]) == if p.partId == "" then [] else [p]
  {
    assert [p][..0] == [];
  }

  lemma InsertedShareDiffers(x: Share, y: Share, z: Share, p: RunPart)
    requires Inserts(x, y) && z.parts == [p] && p.partId != x.runId
    ensures Joined(Joined(x, y), z).parts == [Inserted(x, y), p] && Joined(x, Joined(y, z)).parts == [p]
  {
    var q := Inserted(x, y);
    assert y.parts + z.parts == [p] && x.parts + [p] == [p] && [q] + z.parts == [q, p];
    UpsertOne(PART_KEY, [], p);
    UpsertOne(PART_KEY, [], q);
    UpsertConcat(PART_KEY, [], [q], [p]);
    UpsertOne(PART_KEY, [q], p);
    assert [q] + [p] == [q, p];
  }

  /** `Merge` is associative: the groupings give the same report exactly when no repeated storage selection
      is overwritten and no part inserted in an inner merge sticks out. */
  lemma MergeIsAssociative(a: Report, b: Report, c: Report)
    requires Mergeable(a, b) && Mergeable(b, c)
    ensures Merged(Merged(a, b), c) == Merged(a, Merged(b, c))
       <==> RepetitionsAgree(STORAGE_KEY, b.storage, c.storage) && PartsAgree(ShareOf(a), ShareOf(b), ShareOf(c))
  {
    ResultsAssociate(a, b, c);
    StorageAssociatesExactly(a, b, c);
    PartsAssociateExactly(a, b, c);
    SameInEveryField(Merged(Merged(a, b), c), Merged(a, Merged(b, c)));
  }

  lemma SameInEveryField(x: Report, y: Report)
    requires SameResults(x, y) && x.partsCount == |x.parts| && y.partsCount == |y.parts|
    ensures x == y <==> x.storage == y.storage && x.parts == y.parts
  {
  }

  // ---- blocking incidents --------------------------------------------------------

  /** Some key's first incident blocks. Merging keeps exactly the first incident of each key. */
  ghost predicate FirstBlocks(incidents: seq<Incident>)
  {
    HasBlocker(KeepFirst(INCIDENT_KEY, incidents))
  }

  datatype LifecycleStep =
    | MergeNext(next: Report)
    | FinalizeAs(status: RunStatus, reason: string, endedAt: string)
    | Refresh

  /** After a failed merge the caller goes on with the report it had; here its derived flags are brought up to
      date as well, which changes nothing for a report that was refreshed before. */
  ghost function Stepped(r: Report, step: LifecycleStep): Report
  {
    match step
    case MergeNext(next) => if Mergeable(r, next) then Merged(r, next) else Refreshed(r)
    case FinalizeAs(status, reason, endedAt) => Finalized(r, status, reason, endedAt)
    case Refresh => Refreshed(r)
  }

  ghost function SteppedAll(r: Report, steps: seq<LifecycleStep>): Report
  {
    if steps == [] then r else Stepped(SteppedAll(r, steps[..|steps| - 1]), steps[|steps| - 1])
  }

  lemma MergeKeepsBlocker(base: seq<Incident>, next: seq<Incident>)
    requires FirstBlocks(base)
    ensures FirstBlocks(KeepFirst(INCIDENT_KEY, base + next)) && HasBlocker(KeepFirst(INCIDENT_KEY, base + next))
  {
    KeepFirstKeepsBase(INCIDENT_KEY, base, next);
    KeepFirstIdempotent(INCIDENT_KEY, base + next);
    var i :| i in KeepFirst(INCIDENT_KEY, base) && i.blocksCertification;
    var n :| 0 <= n < |KeepFirst(INCIDENT_KEY, base)| && KeepFirst(INCIDENT_KEY, base)[n] == i;
    assert KeepFirst(INCIDENT_KEY, base + next)[n] == i;
  }

  lemma FirstBlocksBlocks(incidents: seq<Incident>)
    requires FirstBlocks(incidents)
    ensures HasBlocker(incidents)
  {
    KeepFirstMembers(INCIDENT_KEY, incidents);
  }

  lemma {:induction false} BlockerIsPermanent(r: Report, steps: seq<LifecycleStep>)
    requires FirstBlocks(r.incidents)
    ensures FirstBlocks(SteppedAll(r, steps).incidents)
    ensures steps != [] ==> !SteppedAll(r, steps).certifiable
  {
    if steps != [] {
      var before := SteppedAll(r, steps[..|steps| - 1]);
      BlockerIsPermanent(r, steps[..|steps| - 1]);
      FirstBlocksBlocks(before.incidents);
      match steps[|steps| - 1]
      case MergeNext(next) => MergeKeepsBlocker(before.incidents, next.incidents);
      case _ =>
    }
  }

  /** With distinct incident keys any blocking incident is permanent. */
  lemma DistinctBlockerIsPermanent(r: Report, steps: seq<LifecycleStep>)
    requires DistinctKeys(INCIDENT_KEY, r.incidents) && HasBlocker(r.incidents) && steps != []
    ensures !SteppedAll(r, steps).certifiable
  {
    KeepFirstDistinct(INCIDENT_KEY, r.incidents);
    BlockerIsPermanent(r, steps);
  }

  /** Exactly when no later report can make the merge certifiable: some key's first incident blocks. */
  lemma BlockedForeverExactly(base: Report)
    ensures FirstBlocks(base.incidents) <==>
            forall next :: Mergeable(base, next) ==> HasBlocker(Merged(base, next).incidents)
  {
    if FirstBlocks(base.incidents) {
      forall next ensures HasBlocker(Merged(base, next).incidents) {
        MergeKeepsBlocker(base.incidents, next.incidents);
      }
    } else {
      var next := base.(incidents := []);
      assert Mergeable(base, next) && base.incidents + next.incidents == base.incidents;
      assert !HasBlocker(Merged(base, next).incidents);
    }
  }

  /** A blocker hidden behind an earlier incident with its id is lost by the next merge. */
  lemma HiddenBlockerIsLost(r: Report, first: Incident, second: Incident, next: Report)
    requires first.id == second.id != "" && !first.blocksCertification && second.blocksCertification
    requires r.incidents == [first, second] && next.incidents == []
    ensures HasBlocker(r.incidents) && !HasBlocker(Merged(r, next).incidents)
  {
    assert second in r.incidents;
    assert r.incidents + next.incidents == ([] + [first]) + [second];
    KeepFirstSnoc(INCIDENT_KEY, [], first);
    KeepFirstSnoc(INCIDENT_KEY, [first], second);
    assert first in [first];
    assert [] + [first] == [first];
    assert Merged(r, next).incidents == [first];
  }

  /** After a refresh the flag means what it says. */
  lemma CertifiableMeaning(r: Report)
    requires Tallied(r.verdicts, r.summary, r.levels)
    ensures Refreshed(r).certifiable <==>
            && (r.status == Complete || r.status == Unset)
            && (forall i :: i in r.incidents ==> !i.blocksCertification)
            && (forall v :: v in r.verdicts ==> v.outcome != Fail && v.outcome != Error)
  {
    RefreshedIsHonest(r);
  }

  // ---- honest reports ------------------------------------------------------------

  /** Whatever two reports say about themselves, their merge is certifiable exactly when the later one is complete
      and the merged lists hold neither a blocking incident nor a failure, and its level is the one they earn. */
  lemma MergedCertifiableExactly(base: Report, next: Report)
    ensures var merged := Merged(base, next);
            && (merged.certifiable <==>
                  && (next.status == Complete || next.status == Unset)
                  && (forall i :: i in merged.incidents ==> !i.blocksCertification)
                  && (forall v :: v in merged.verdicts ==> v.outcome != Fail && v.outcome != Error))
            && Levels.IsCertified(merged.verdicts, merged.summary.certifiedLevel)
  {
    SummarizedTallies(MergedVerdicts(base, next));
    CertifiableMeaning(Assembled(base, next));
  }

  /** What finalizing writes, and where. */
  lemma FinalizedEnds(r: Report, status: RunStatus, reason: string, endedAt: string)
    ensures EndedAs(r, Finalized(r, status, reason, endedAt), status, reason, endedAt)
  {
  }

  lemma FinalizedIsHonest(r: Report, status: RunStatus, reason: string, endedAt: string)
    requires Tallied(r.verdicts, r.summary, r.levels)
    ensures Honest(Finalized(r, status, reason, endedAt))
  {
    var parts := if r.parts == [] then [RunPart(r.runId, "", Unset, "", "")] else r.parts;
    var last := parts[|parts| - 1].(status := status, endedAt := endedAt, reason := reason);
    RefreshedIsHonest(r.(status := status, reason := reason, parts := parts[|parts| - 1 := last]));
  }

  lemma StepStaysHonest(r: Report, step: LifecycleStep)
    requires Tallied(r.verdicts, r.summary, r.levels)
    ensures Honest(Stepped(r, step))
  {
    match step
    case MergeNext(next) =>
      if Mergeable(r, next) {
        MergedIsHonest(r, next);
      } else {
        RefreshedIsHonest(r);
      }
    case FinalizeAs(status, reason, endedAt) => FinalizedIsHonest(r, status, reason, endedAt);
    case Refresh => RefreshedIsHonest(r);
  }

  /** Merging, finalizing and refreshing in any order leave an honest report, whatever is merged into it. */
  lemma {:induction false} StepsStayHonest(r: Report, steps: seq<LifecycleStep>)
    requires Honest(r)
    ensures Honest(SteppedAll(r, steps))
  {
    if steps != [] {
      var before := SteppedAll(r, steps[..|steps| - 1]);
      StepsStayHonest(r, steps[..|steps| - 1]);
      StepStaysHonest(before, steps[|steps| - 1]);
    }
  }
}
