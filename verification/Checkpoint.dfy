/** `cmd/harness/checkpoint.go`: the report kept for recovery while a run is in progress. */
module Checkpoint {
  import opened Core
  import opened Keyed
  import opened Appending
  import opened Reports
  import opened ReportLaws

  /** What `Save` keeps. An incompatible snapshot replaces the report (and sets the error). */
  ghost function Saved(latest: Report, snapshot: Report): Report
  {
    if latest.runId != "" && Mergeable(latest, snapshot) then Merged(latest, snapshot) else snapshot
  }

  ghost function SavedAll(latest: Report, snapshots: seq<Report>): Report
    decreases |snapshots|
  {
    if snapshots == [] then latest else SavedAll(Saved(latest, snapshots[0]), snapshots[1..])
  }

  ghost predicate KnownId(incidents: seq<Incident>, id: string)
  {
    exists i :: i in incidents && i.id != "" && i.id == id
  }

  ghost function WithIncident(latest: Report, incident: Incident): Report
  {
    Refreshed(latest.(incidents := latest.incidents + [incident]))
  }

  ghost function Recorded(latest: Report, incident: Incident): Report
  {
    if KnownId(latest.incidents, incident.id) then latest else Saved(latest, WithIncident(latest, incident))
  }

  class ReportCheckpoint {
    var latest: Report
    var failed: bool

    constructor (initial: Report)
      ensures latest == initial && !failed
    {
      latest := initial;
      failed := false;
    }

    method Save(snapshot: Report)
      modifies this
      ensures latest == Saved(old(latest), snapshot)
      ensures old(latest).runId == "" || !Mergeable(old(latest), snapshot) ==> latest == snapshot
      ensures Honest(snapshot) ==> Honest(latest)
      ensures failed == (old(failed) || (old(latest).runId != "" && !Mergeable(old(latest), snapshot)))
      ensures FirstBlocks(old(latest).incidents) && old(latest).runId != ""
              ==> failed || (FirstBlocks(latest.incidents) && !latest.certifiable)
    {
      var merged := snapshot;
      if latest.runId != "" {
        var candidate := MergeReports(latest, snapshot);
        match candidate
        case Some(r) =>
          merged := r;
          if FirstBlocks(latest.incidents) {
            MergeKeepsBlocker(latest.incidents, snapshot.incidents);
          }
        case None =>
          failed := true;
      }
      latest := merged;
    }

    method RecordIncident(incident: Incident)
      modifies this
      ensures latest == Recorded(old(latest), incident)
      ensures failed == old(failed)
      ensures Honest(old(latest)) ==> Honest(latest)
    {
      for i := 0 to |latest.incidents|
        invariant latest == old(latest) && failed == old(failed)
        invariant forall j :: 0 <= j < i ==> latest.incidents[j].id == "" || latest.incidents[j].id != incident.id
      {
        if latest.incidents[i].id != "" && latest.incidents[i].id == incident.id {
          assert latest.incidents[i] in latest.incidents;
          return;
        }
      }
      if Honest(latest) {
        RecordedIsHonest(latest, incident);
      }
      var ref := new ReportRef(latest.(incidents := latest.incidents + [incident]));
      ref.RefreshLifecycle();
      Save(ref.report);
    }

    method Finalize(status: RunStatus, reason: string, endedAt: string)
      modifies this
      ensures latest == Finalized(old(latest), status, reason, endedAt)
      ensures EndedAs(old(latest), latest, status, reason, endedAt)
      ensures failed == old(failed)
      ensures Honest(old(latest)) ==> Honest(latest)
    {
      FinalizedEnds(latest, status, reason, endedAt);
      if Honest(latest) {
        FinalizedIsHonest(latest, status, reason, endedAt);
      }
      var ref := new ReportRef(latest);
      ref.Finalize(status, reason, endedAt);
      latest := ref.report;
    }
  }

  /** Whatever is saved, the report kept says of itself what it should, as the snapshots do. */
  lemma {:induction false} SavesStayHonest(latest: Report, snapshots: seq<Report>)
    requires Honest(latest)
    requires forall i :: 0 <= i < |snapshots| ==> Honest(snapshots[i])
    ensures Honest(SavedAll(latest, snapshots))
    decreases |snapshots|
  {
    if snapshots != [] {
      SavedIsHonest(latest, snapshots[0]);
      SavesStayHonest(Saved(latest, snapshots[0]), snapshots[1..]);
    }
  }

  lemma SavedIsHonest(latest: Report, snapshot: Report)
    requires Honest(snapshot)
    ensures Honest(Saved(latest, snapshot))
  {
    MergedIsHonest(latest, snapshot);
  }

  lemma RecordedIsHonest(latest: Report, incident: Incident)
    requires Honest(latest)
    ensures Honest(Recorded(latest, incident))
  {
    RefreshedIsHonest(latest.(incidents := latest.incidents + [incident]));
    SavedIsHonest(latest, WithIncident(latest, incident));
  }

  /** Every key of `s`'s lists is a key of `last`'s, and its incident log is a beginning of `last`'s. */
  ghost predicate GrowsInto(s: Report, last: Report)
  {
    && s.commit == last.commit
    && Table(VERDICTS.key, s.verdicts).Keys <= Table(VERDICTS.key, last.verdicts).Keys
    && Table(MEASUREMENTS.key, s.measurements).Keys <= Table(MEASUREMENTS.key, last.measurements).Keys
    && Table(EXECUTIONS.key, s.executions).Keys <= Table(EXECUTIONS.key, last.executions).Keys
    && s.incidents <= last.incidents
    && (s.schema == last.schema || s.schema == "")
  }

  lemma VerdictsAbsorbed(base: Report, s: Report, last: Report)
    requires GrowsInto(s, last)
    ensures MergedVerdicts(Merged(base, s), last) == MergedVerdicts(base, last)
  {
    IndexesCoherent();
    MergeAbsorbs(VERDICTS, base.verdicts, s.verdicts, last.verdicts);
  }

  lemma MeasurementsAbsorbed(base: Report, s: Report, last: Report)
    requires GrowsInto(s, last)
    ensures MergedMeasurements(Merged(base, s), last) == MergedMeasurements(base, last)
  {
    IndexesCoherent();
    MergeAbsorbs(MEASUREMENTS, base.measurements, s.measurements, last.measurements);
  }

  lemma ExecutionsAbsorbed(base: Report, s: Report, last: Report)
    requires GrowsInto(s, last)
    ensures MergedExecutions(Merged(base, s), last) == MergedExecutions(base, last)
  {
    IndexesCoherent();
    MergeAbsorbs(EXECUTIONS, base.executions, s.executions, last.executions);
  }

  lemma IncidentsAbsorbed(base: Report, s: Report, last: Report)
    requires GrowsInto(s, last)
    ensures MergedIncidents(Merged(base, s), last) == MergedIncidents(base, last)
  {
    var rest := last.incidents[|s.incidents|..];
    assert last.incidents == s.incidents + rest;
    GrowingLogAbsorbed(INCIDENT_KEY, base.incidents, s.incidents, rest);
  }

  lemma SnapshotAbsorbed(base: Report, s: Report, last: Report)
    requires Mergeable(base, last) && GrowsInto(s, last)
    ensures Mergeable(base, s) && Mergeable(Merged(base, s), last) && Merged(base, s).runId == base.runId
    ensures SameResults(Merged(Merged(base, s), last), Merged(base, last))
  {
    VerdictsAbsorbed(base, s, last);
    MeasurementsAbsorbed(base, s, last);
    ExecutionsAbsorbed(base, s, last);
    IncidentsAbsorbed(base, s, last);
    MergesAgree(Merged(base, s), last, base, last);
  }

  /** Checkpointing every snapshot of a run leaves the report a single merge of its last one gives. */
  lemma {:induction false} CheckpointEqualsOneMerge(base: Report, snapshots: seq<Report>, last: Report)
    requires base.runId != "" && Mergeable(base, last)
    requires forall i :: 0 <= i < |snapshots| ==> GrowsInto(snapshots[i], last)
    ensures SameResults(SavedAll(base, snapshots + [last]), Merged(base, last))
    decreases |snapshots|
  {
    if snapshots == [] {
      assert snapshots + [last] == [last] && [last][1..] == [];
      assert SavedAll(base, [last]) == SavedAll(Saved(base, last), []);
    } else {
      var s, rest := snapshots[0], snapshots[1..];
      assert forall i :: 0 <= i < |rest| ==> rest[i] == snapshots[i + 1];
      SnapshotAbsorbed(base, s, last);
      SavedFirst(base, snapshots, last);
      assert Saved(base, s) == Merged(base, s);
      CheckpointEqualsOneMerge(Merged(base, s), rest, last);
      SameResultsTransitive(SavedAll(base, snapshots + [last]), Merged(Merged(base, s), last), Merged(base, last));
    }
  }

  /** A snapshot of the same run part as `last`, whose storage selections are among its. */
  ghost predicate OfOnePart(s: Report, last: Report)
  {
    && (forall k :: k in KeyList(STORAGE_KEY, s.storage) ==> k in KeyList(STORAGE_KEY, last.storage))
    && |s.parts| == |last.parts| == 1 && s.parts[0].partId == last.parts[0].partId != ""
  }

  function AllStorage(snapshots: seq<Report>): seq<StorageSelection>
  {
    if snapshots == [] then [] else snapshots[0].storage + AllStorage(snapshots[1..])
  }

  lemma PartAbsorbed(base: Report, s: Report, last: Report)
    requires OfOnePart(s, last)
    ensures Merged(Merged(base, s), last).parts == Merged(base, last).parts
  {
    var p, q, held := s.parts[0], last.parts[0], Deduped(ShareOf(base).parts);
    assert s.parts == [p] && last.parts == [q];
    OneNamed(p);
    OneNamed(q);
    MergedShare(base, s);
    MergedShare(base, last);
    MergedShare(Merged(base, s), last);
    OneMorePart(ShareOf(base).parts, p);
    OneMorePart(ShareOf(base).parts, q);
    OneMorePart(Put(PART_KEY, held, p), q);
    DedupedPut(ShareOf(base).parts, p);
    PutTwice(PART_KEY, held, p, q);
  }

  lemma OneMorePart(parts: seq<RunPart>, p: RunPart)
    ensures Deduped(parts + [p]) == Put(PART_KEY, Deduped(parts), p)
  {
    UpsertConcat(PART_KEY, [], parts, [p]);
    UpsertOne(PART_KEY, Deduped(parts), p);
  }

  lemma DedupedPut(parts: seq<RunPart>, p: RunPart)
    ensures Deduped(Put(PART_KEY, Deduped(parts), p)) == Put(PART_KEY, Deduped(parts), p)
  {
    OneMorePart(parts, p);
    DedupedTwice(parts + [p]);
  }

  lemma SnapshotSaved(base: Report, s: Report, last: Report)
    requires base.runId != "" && Mergeable(base, last) && GrowsInto(s, last)
    ensures var saved := Saved(base, s);
            && saved == Merged(base, s) && saved.runId == base.runId && Mergeable(saved, last)
            && saved.storage == Upsert(STORAGE_KEY, base.storage, s.storage)
  {
  }

  lemma OnlyLastSaved(base: Report, last: Report)
    requires base.runId != "" && Mergeable(base, last)
    ensures SavedAll(base, [last]) == Merged(base, last)
    ensures Merged(base, last).storage == Upsert(STORAGE_KEY, base.storage, last.storage)
    ensures Merged(base, last).partsCount == |Merged(base, last).parts|
  {
    assert [last][1..] == [];
    assert SavedAll(base, [last]) == SavedAll(Saved(base, last), []);
  }

  lemma StorageRegroups(base: seq<StorageSelection>, first: seq<StorageSelection>, rest: seq<StorageSelection>,
                        last: seq<StorageSelection>)
    ensures Upsert(STORAGE_KEY, Upsert(STORAGE_KEY, base, first), rest + last)
         == Upsert(STORAGE_KEY, base, (first + rest) + last)
  {
    UpsertConcat(STORAGE_KEY, base, first, rest + last);
    assert first + (rest + last) == (first + rest) + last;
  }

  /** Apart from the results: one part for the run, and every snapshot's selections one after another. */
  lemma {:induction false} CheckpointComposition(base: Report, snapshots: seq<Report>, last: Report)
    requires base.runId != "" && Mergeable(base, last)
    requires forall i :: 0 <= i < |snapshots| ==> GrowsInto(snapshots[i], last) && OfOnePart(snapshots[i], last)
    ensures var end := SavedAll(base, snapshots + [last]);
            && end.parts == Merged(base, last).parts && end.partsCount == |end.parts|
            && end.storage == Upsert(STORAGE_KEY, base.storage, AllStorage(snapshots) + last.storage)
    decreases |snapshots|
  {
    if snapshots == [] {
      assert snapshots + [last] == [last] && AllStorage(snapshots) + last.storage == last.storage;
      OnlyLastSaved(base, last);
    } else {
      var s, rest := snapshots[0], snapshots[1..];
      assert forall i :: 0 <= i < |rest| ==> rest[i] == snapshots[i + 1];
      SavedFirst(base, snapshots, last);
      SnapshotSaved(base, s, last);
      CheckpointComposition(Saved(base, s), rest, last);
      PartAbsorbed(base, s, last);
      StorageRegroups(base.storage, s.storage, AllStorage(rest), last.storage);
    }
  }

  lemma {:induction false} AllStorageListed(snapshots: seq<Report>, last: Report, k: (string, string, string))
    requires forall i :: 0 <= i < |snapshots| ==> OfOnePart(snapshots[i], last)
    requires k in KeyList(STORAGE_KEY, AllStorage(snapshots))
    ensures k in KeyList(STORAGE_KEY, last.storage)
  {
    var s, rest := snapshots[0], snapshots[1..];
    KeyListConcat(STORAGE_KEY, s.storage, AllStorage(rest));
    if k !in KeyList(STORAGE_KEY, s.storage) {
      assert forall i :: 0 <= i < |rest| ==> rest[i] == snapshots[i + 1];
      AllStorageListed(rest, last, k);
    }
  }

  /** The whole report, storage selections and run parts included: the selections are always the same ones, and
      it is exactly that of one merge when the snapshots first saved new ones in the order the last one lists them. */
  lemma CheckpointIsOneMergeExactly(base: Report, snapshots: seq<Report>, last: Report)
    requires base.runId != "" && Mergeable(base, last)
    requires forall i :: 0 <= i < |snapshots| ==> GrowsInto(snapshots[i], last) && OfOnePart(snapshots[i], last)
    ensures var end, one, held := SavedAll(base, snapshots + [last]), Merged(base, last), KeyList(STORAGE_KEY, base.storage);
            && (forall k :: Find(STORAGE_KEY, end.storage, k) == Find(STORAGE_KEY, one.storage, k))
            && (end == one <==> AddKeys(held, KeyList(STORAGE_KEY, AllStorage(snapshots)))
                                  <= AddKeys(held, KeyList(STORAGE_KEY, last.storage)))
  {
    CheckpointEqualsOneMerge(base, snapshots, last);
    CheckpointComposition(base, snapshots, last);
    forall k | k in KeyList(STORAGE_KEY, AllStorage(snapshots)) ensures k in KeyList(STORAGE_KEY, last.storage) {
      AllStorageListed(snapshots, last, k);
    }
    UpsertAgainExactly(STORAGE_KEY, base.storage, AllStorage(snapshots), last.storage);
    SameInEveryField(SavedAll(base, snapshots + [last]), Merged(base, last));
  }

  lemma SameResultsTransitive(a: Report, b: Report, c: Report)
    requires SameResults(a, b) && SameResults(b, c)
    ensures SameResults(a, c)
  {
  }

  lemma SavedFirst(base: Report, snapshots: seq<Report>, last: Report)
    requires snapshots != []
    ensures SavedAll(base, snapshots + [last]) == SavedAll(Saved(base, snapshots[0]), snapshots[1..] + [last])
  {
    assert (snapshots + [last])[1..] == snapshots[1..] + [last];
  }

  /** The other side of the guard: a checkpoint without a run id starts over from the first snapshot. */
  lemma CheckpointWithoutRunId(base: Report, snapshots: seq<Report>, last: Report)
    requires base.runId == "" && snapshots != []
    requires forall i :: 0 <= i < |snapshots| ==> GrowsInto(snapshots[i], last) && snapshots[i].runId != ""
    ensures SameResults(SavedAll(base, snapshots + [last]), Merged(snapshots[0], last))
  {
    SavedFirst(base, snapshots, last);
    CheckpointEqualsOneMerge(snapshots[0], snapshots[1..], last);
  }

  /** Recording an incident adds it unless its key is known, and changes no result list's meaning. */
  lemma RecordedMeaning(latest: Report, incident: Incident)
    requires latest.runId != ""
    ensures var r := Recorded(latest, incident);
            && KeepFirst(INCIDENT_KEY, r.incidents) == KeepFirst(INCIDENT_KEY, latest.incidents + [incident])
            && Table(VERDICTS.key, r.verdicts) == Table(VERDICTS.key, latest.verdicts)
            && Table(MEASUREMENTS.key, r.measurements) == Table(MEASUREMENTS.key, latest.measurements)
            && Table(EXECUTIONS.key, r.executions) == Table(EXECUTIONS.key, latest.executions)
  {
    if KnownId(latest.incidents, incident.id) {
      KnownIsRepeat(latest.incidents, incident);
    } else {
      SelfMergeTables(latest);
      RecordedIncidents(latest.incidents, incident);
    }
  }

  lemma KnownIsRepeat(incidents: seq<Incident>, incident: Incident)
    requires KnownId(incidents, incident.id)
    ensures KeepFirst(INCIDENT_KEY, incidents + [incident]) == KeepFirst(INCIDENT_KEY, incidents)
  {
    var i :| i in incidents && i.id != "" && i.id == incident.id;
    assert INCIDENT_KEY(i) == INCIDENT_KEY(incident);
    assert HasKey(INCIDENT_KEY, incidents, INCIDENT_KEY(incident));
    KeepFirstIgnoresRepeats(INCIDENT_KEY, incidents, [incident]);
  }

  lemma SelfMergeTables(r: Report)
    ensures Table(VERDICTS.key, MergedVerdicts(r, r)) == Table(VERDICTS.key, r.verdicts)
    ensures Table(MEASUREMENTS.key, MergedMeasurements(r, r)) == Table(MEASUREMENTS.key, r.measurements)
    ensures Table(EXECUTIONS.key, MergedExecutions(r, r)) == Table(EXECUTIONS.key, r.executions)
  {
    IndexesCoherent();
    MergeWithSelf(VERDICTS, r.verdicts);
    MergeWithSelf(MEASUREMENTS, r.measurements);
    MergeWithSelf(EXECUTIONS, r.executions);
  }

  lemma RecordedIncidents(known: seq<Incident>, incident: Incident)
    ensures KeepFirst(INCIDENT_KEY, KeepFirst(INCIDENT_KEY, known + (known + [incident])))
            == KeepFirst(INCIDENT_KEY, known + [incident])
  {
    forall i | 0 <= i < |known| ensures HasKey(INCIDENT_KEY, known, INCIDENT_KEY(known[i])) {
      assert known[i] in known;
    }
    KeepFirstIgnoresPrefix(INCIDENT_KEY, known, known, [incident]);
    KeepFirstIdempotent(INCIDENT_KEY, known + [incident]);
  }
}
