/** `internal/report`: building, refreshing, finalizing and merging certification reports. */
module Reports {
  import opened Core
  import opened Text
  import opened Keyed
  import opened Appending
  import opened Sorting
  import Levels

  datatype Report = Report(
    runId: string, status: RunStatus, health: RunHealth, certifiable: bool, reason: string,
    schema: string, commit: string, storage: seq<StorageSelection>, partsCount: nat, parts: seq<RunPart>,
    executions: seq<RunExecution>, incidents: seq<Incident>, verdicts: seq<Verdict>,
    measurements: seq<Measurement>, levels: seq<LevelRollup>, summary: Summary)

  // ---- identity and order of the listed records -----------------------------

  const VERDICTS: Index<Verdict> := Index(
    (v: Verdict) => Join([v.tr, v.variant, v.item, v.scenario]),
    (v: Verdict) => [v.tr, v.variant, v.scenario, v.item])

  const MEASUREMENTS: Index<Measurement> := Index(
    (m: Measurement) => Join([m.tr, m.variant, m.name, m.percentile, m.scenario]),
    (m: Measurement) => [m.tr, m.variant, m.scenario, m.name, m.percentile])

  const EXECUTIONS: Index<RunExecution> := Index(
    (e: RunExecution) => Join([e.tr, e.variant, e.scenario]),
    (e: RunExecution) => [e.tr, e.variant, e.scenario])

  const INCIDENT_KEY: Incident -> string :=
    (i: Incident) => if i.id == "" then Join([i.kind, i.tr, i.message]) else i.id

  const PART_KEY: RunPart -> string := (p: RunPart) => p.partId

  const STORAGE_KEY: StorageSelection -> (string, string, string) :=
    (s: StorageSelection) => (s.tr, s.variant, s.scenario)

  lemma IndexesCoherent()
    ensures Coherent(VERDICTS) && Coherent(MEASUREMENTS) && Coherent(EXECUTIONS)
  {
    forall a: Verdict, b: Verdict | VERDICTS.rank(a) == VERDICTS.rank(b) ensures VERDICTS.key(a) == VERDICTS.key(b) {
      var ra, rb := VERDICTS.rank(a), VERDICTS.rank(b);
      assert ra[0] == rb[0] && ra[1] == rb[1] && ra[2] == rb[2] && ra[3] == rb[3];
    }
    forall a: Measurement, b: Measurement | MEASUREMENTS.rank(a) == MEASUREMENTS.rank(b)
      ensures MEASUREMENTS.key(a) == MEASUREMENTS.key(b)
    {
      var ra, rb := MEASUREMENTS.rank(a), MEASUREMENTS.rank(b);
      assert ra[0] == rb[0] && ra[1] == rb[1] && ra[2] == rb[2] && ra[3] == rb[3] && ra[4] == rb[4];
    }
  }

  // ---- summary ----------------------------------------------------------------

  ghost function Count(vs: seq<Verdict>, o: Outcome): nat
  {
    if vs == [] then 0
    else Count(vs[..|vs| - 1], o) + if vs[|vs| - 1].outcome == o then 1 else 0
  }

  ghost function Summarized(vs: seq<Verdict>): Summary
  {
    Summary(|vs|, Count(vs, Pass), Count(vs, Fail), Count(vs, Error), Count(vs, Skip), Levels.Certified(vs))
  }

  /** Where a list has this outcome. */
  ghost function Places(vs: seq<Verdict>, o: Outcome): set<nat>
  {
    set i: nat | i < |vs| && vs[i].outcome == o
  }

  /** What summary and rollups must say about the verdicts they go with. */
  ghost predicate Tallied(vs: seq<Verdict>, summary: Summary, levels: seq<LevelRollup>)
  {
    && summary.total == |vs|
    && summary.pass == |Places(vs, Pass)| && summary.fail == |Places(vs, Fail)|
    && summary.error == |Places(vs, Error)| && summary.skip == |Places(vs, Skip)|
    && Levels.IsCertified(vs, summary.certifiedLevel)
    && Levels.RollsUp(vs, levels)
  }

  lemma {:induction false} CountsPlaces(vs: seq<Verdict>, o: Outcome)
    ensures Count(vs, o) == |Places(vs, o)|
  {
    if vs == [] {
      assert Places(vs, o) == {};
    } else {
      var init, last := vs[..|vs| - 1], vs[|vs| - 1];
      assert vs == init + [last];
      CountsPlaces(init, o);
      PlacesSnoc(init, last, o);
    }
  }

  lemma PlacesSnoc(vs: seq<Verdict>, v: Verdict, o: Outcome)
    ensures Places(vs + [v], o) == Places(vs, o) + if v.outcome == o then {|vs|} else {}
    ensures |vs| !in Places(vs, o)
  {
  }

  lemma SummarizedTallies(vs: seq<Verdict>)
    ensures Tallied(vs, Summarized(vs), Levels.Rollups(vs))
  {
    CountsPlaces(vs, Pass);
    CountsPlaces(vs, Fail);
    CountsPlaces(vs, Error);
    CountsPlaces(vs, Skip);
    Levels.CertifiedMeetsSpec(vs);
    Levels.RollupsMeetSpec(vs);
  }

  method Summarize(vs: seq<Verdict>) returns (levels: seq<LevelRollup>, summary: Summary)
    ensures levels == Levels.Rollups(vs) && summary == Summarized(vs)
    ensures Tallied(vs, summary, levels)
  {
    var pass, fail, error, skip := 0, 0, 0, 0;
    for i := 0 to |vs|
      invariant pass == Count(vs[..i], Pass) && fail == Count(vs[..i], Fail)
      invariant error == Count(vs[..i], Error) && skip == Count(vs[..i], Skip)
    {
      assert vs[..i + 1][..i] == vs[..i];
      match vs[i].outcome {
        case Pass => pass := pass + 1;
        case Fail => fail := fail + 1;
        case Error => error := error + 1;
        case Skip => skip := skip + 1;
        case OtherOutcome(_) =>
      }
    }
    assert vs[..|vs|] == vs;
    var certified;
    levels, certified := Levels.RollupLevels(vs);
    summary := Summary(|vs|, pass, fail, error, skip, certified);
    SummarizedTallies(vs);
  }

  // ---- lifecycle -----------------------------------------------------------------

  predicate HasBlocker(incidents: seq<Incident>)
  {
    exists i :: i in incidents && i.blocksCertification
  }

  function Refreshed(r: Report): Report
  {
    var status := if r.status == Unset then Complete else r.status;
    var parts := if r.parts == [] && r.runId != "" then [RunPart(r.runId, "initial", status, "", "")] else r.parts;
    r.(status := status, parts := parts, partsCount := |parts|,
       health := if status != Running && status != Complete then Unhealthy
                 else if r.incidents == [] then Healthy else Degraded,
       certifiable := status == Complete && !HasBlocker(r.incidents) && r.summary.fail == 0 && r.summary.error == 0)
  }

  function Finalized(r: Report, status: RunStatus, reason: string, endedAt: string): Report
  {
    var parts := if r.parts == [] then [RunPart(r.runId, "", Unset, "", "")] else r.parts;
    var last := parts[|parts| - 1].(status := status, endedAt := endedAt, reason := reason);
    Refreshed(r.(status := status, reason := reason, parts := parts[|parts| - 1 := last]))
  }

  /** The end of the run is written to the report and to its last part, and nothing else about them changes. */
  ghost predicate EndedAs(before: Report, after: Report, status: RunStatus, reason: string, endedAt: string)
  {
    var n := |after.parts| - 1;
    && after.status == (if status == Unset then Complete else status) && after.reason == reason
    && |after.parts| == (if before.parts == [] then 1 else |before.parts|)
    && after.parts[..n] == before.parts[..n]
    && after.parts[n].status == status && after.parts[n].reason == reason && after.parts[n].endedAt == endedAt
    && after.parts[n].partId == (if before.parts == [] then before.runId else before.parts[n].partId)
    && (before.parts != [] ==> after.parts[n].kind == before.parts[n].kind)
    && after.runId == before.runId && after.verdicts == before.verdicts && after.measurements == before.measurements
    && after.executions == before.executions && after.incidents == before.incidents
    && after.storage == before.storage && after.summary == before.summary && after.levels == before.levels
  }

  ghost predicate Certifies(r: Report)
  {
    && r.status == Complete
    && (forall i :: i in r.incidents ==> !i.blocksCertification)
    && (forall v :: v in r.verdicts ==> v.outcome != Fail && v.outcome != Error)
  }

  /** Every derived field says what it should about the report's own records and status. */
  ghost predicate Honest(r: Report)
  {
    && Tallied(r.verdicts, r.summary, r.levels)
    && (r.certifiable <==> Certifies(r))
    && r.status != Unset && (r.health == Unhealthy <==> r.status !in {Running, Complete})
    && (r.health == Healthy <==> r.status in {Running, Complete} && r.incidents == [])
    && r.partsCount == |r.parts| && (r.parts == [] ==> r.runId == "")
  }

  lemma NoPlaces(vs: seq<Verdict>, o: Outcome)
    ensures |Places(vs, o)| == 0 <==> forall v :: v in vs ==> v.outcome != o
  {
    forall v | v in vs && v.outcome == o ensures Places(vs, o) != {} {
      var i: nat :| i < |vs| && vs[i] == v;
      assert i in Places(vs, o);
    }
    if Places(vs, o) != {} {
      var i :| i in Places(vs, o);
      assert vs[i] in vs;
    }
  }

  /** Refreshing makes a report with the right summary and rollups honest. */
  lemma RefreshedIsHonest(r: Report)
    requires Tallied(r.verdicts, r.summary, r.levels)
    ensures Honest(Refreshed(r))
  {
    TallyOfFailures(r.verdicts, r.summary, r.levels);
  }

  lemma TallyOfFailures(vs: seq<Verdict>, summary: Summary, levels: seq<LevelRollup>)
    requires Tallied(vs, summary, levels)
    ensures summary.fail == 0 && summary.error == 0 <==> forall v :: v in vs ==> v.outcome != Fail && v.outcome != Error
  {
    NoPlaces(vs, Fail);
    NoPlaces(vs, Error);
  }

  /** A report held through a pointer, as `RefreshLifecycle` and `Finalize` receive it. */
  class ReportRef {
    var report: Report

    constructor (report: Report)
      ensures this.report == report
    {
      this.report := report;
    }

    /** The derived flags, with the early returns of the source. */
    method RefreshLifecycle()
      modifies this
      ensures report == Refreshed(old(report))
    {
      if report.status == Unset {
        report := report.(status := Complete);
      }
      if report.parts == [] && report.runId != "" {
        report := report.(parts := [RunPart(report.runId, "initial", report.status, "", "")]);
      }
      report := report.(partsCount := |report.parts|);
      if report.status == Running {
        report := report.(health := Healthy);
        if |report.incidents| > 0 {
          report := report.(health := Degraded);
        }
        report := report.(certifiable := false);
        return;
      }
      if report.status == Complete {
        FlagCompleted();
        return;
      }
      report := report.(health := Unhealthy, certifiable := false);
    }

    /** The completed case: any incident degrades, a blocking one returns early. */
    method FlagCompleted()
      modifies this
      ensures report == old(report).(health := if old(report).incidents == [] then Healthy else Degraded,
                                     certifiable := !HasBlocker(old(report).incidents) && old(report).summary.fail == 0
                                                    && old(report).summary.error == 0)
    {
      report := report.(health := Healthy);
      for i := 0 to |report.incidents|
        invariant report == old(report).(health := if i == 0 then Healthy else Degraded)
        invariant forall j :: 0 <= j < i ==> !report.incidents[j].blocksCertification
      {
        report := report.(health := Degraded);
        if report.incidents[i].blocksCertification {
          assert report.incidents[i] in old(report).incidents;
          report := report.(certifiable := false);
          return;
        }
      }
      report := report.(certifiable := report.summary.fail == 0 && report.summary.error == 0);
    }

    /** Marks the report terminal and updates its last run part. */
    method Finalize(status: RunStatus, reason: string, endedAt: string)
      modifies this
      ensures report == Finalized(old(report), status, reason, endedAt)
    {
      report := report.(status := status, reason := reason);
      if report.parts == [] {
        report := report.(parts := [RunPart(report.runId, "", Unset, "", "")]);
      }
      var part := report.parts[|report.parts| - 1];
      part := part.(status := status);
      part := part.(endedAt := endedAt);
      part := part.(reason := reason);
      report := report.(parts := report.parts[|report.parts| - 1 := part], partsCount := |report.parts|);
      RefreshLifecycle();
    }
  }

  /** `RefreshLifecycle` on a local report. */
  method RefreshCopy(report: Report) returns (r: Report)
    ensures r == Refreshed(report)
  {
    var ref := new ReportRef(report);
    ref.RefreshLifecycle();
    r := ref.report;
  }

  /** A report of one complete part about these verdicts. */
  method Build(runId: string, schema: string, commit: string, vs: seq<Verdict>) returns (r: Report)
    ensures r.runId == runId && r.schema == schema && r.commit == commit && r.verdicts == vs
    ensures r.levels == Levels.Rollups(vs) && r.summary == Summarized(vs)
    ensures r.parts == [RunPart(runId, "initial", Complete, "", "")] && r.status == Complete && r.health == Healthy
    ensures r.measurements == [] && r.executions == [] && r.incidents == [] && r.storage == []
    ensures r.certifiable <==> forall v :: v in vs ==> v.outcome != Fail && v.outcome != Error
  {
    var levels, summary := Summarize(vs);
    TallyOfFailures(vs, summary, levels);
    r := RefreshCopy(Report(runId, Complete, Healthy, false, "", schema, commit, [], 1,
                            [RunPart(runId, "initial", Complete, "", "")], [], [], vs, [], levels, summary));
  }

  // ---- merge -----------------------------------------------------------------------

  predicate Mergeable(base: Report, next: Report)
  {
    base.commit == "" || next.commit == "" || base.commit == next.commit
  }

  /** The parts a report contributes: its own, or one standing for a report without any. */
  function PartsOf(r: Report): seq<RunPart>
  {
    if r.parts == [] && r.runId != "" then
      [RunPart(r.runId, "", if r.status == Unset then Complete else r.status, "", "")]
    else r.parts
  }

  function Named(parts: seq<RunPart>): seq<RunPart>
  {
    if parts == [] then []
    else Named(parts[..|parts| - 1]) + if parts[|parts| - 1].partId == "" then [] else [parts[|parts| - 1]]
  }

  /** Parts by id: first appearance decides the place, the last one given the content. */
  function Composed(parts: seq<RunPart>): seq<RunPart>
  {
    Upsert(PART_KEY, [], Named(parts))
  }

  function MergedParts(base: Report, next: Report): seq<RunPart>
  {
    Composed(PartsOf(base) + PartsOf(next))
  }

  ghost function MergedVerdicts(base: Report, next: Report): seq<Verdict>
  {
    Dedupe(VERDICTS, base.verdicts + next.verdicts)
  }

  ghost function MergedMeasurements(base: Report, next: Report): seq<Measurement>
  {
    Dedupe(MEASUREMENTS, base.measurements + next.measurements)
  }

  ghost function MergedExecutions(base: Report, next: Report): seq<RunExecution>
  {
    Dedupe(EXECUTIONS, base.executions + next.executions)
  }

  ghost function MergedIncidents(base: Report, next: Report): seq<Incident>
  {
    KeepFirst(INCIDENT_KEY, base.incidents + next.incidents)
  }

  ghost function Assembled(base: Report, next: Report): Report
  {
    var vs := MergedVerdicts(base, next);
    Report(
      base.runId, next.status, Healthy, false, next.reason,
      if base.schema == "" then next.schema else base.schema,
      if base.commit == "" then next.commit else base.commit,
      Upsert(STORAGE_KEY, base.storage, next.storage),
      |MergedParts(base, next)|, MergedParts(base, next),
      MergedExecutions(base, next), MergedIncidents(base, next), vs, MergedMeasurements(base, next),
      Levels.Rollups(vs), Summarized(vs))
  }

  ghost function Merged(base: Report, next: Report): Report
  {
    Refreshed(Assembled(base, next))
  }

  /** `Merge`: `None` is the error for two different KB commits. */
  ghost function Merge(base: Report, next: Report): Option<Report>
  {
    if Mergeable(base, next) then Some(Merged(base, next)) else None
  }

  /** `mergeComposition`: parts without an id are dropped. */
  method MergeParts(base: Report, next: Report) returns (parts: seq<RunPart>)
    ensures parts == MergedParts(base, next)
  {
    var all := PartsOf(base) + PartsOf(next);
    parts := [];
    var seen: set<string> := {};
    for n := 0 to |all|
      invariant parts == Composed(all[..n])
      invariant forall k :: k in seen <==> k in KeyList(PART_KEY, parts)
    {
      assert all[..n + 1] == all[..n] + [all[n]];
      parts, seen := AddPart(all[..n], parts, seen, all[n]);
    }
    assert all[..|all|] == all;
  }

  lemma ComposedSnoc(parts: seq<RunPart>, p: RunPart)
    ensures Distinct(KeyList(PART_KEY, Composed(parts)))
    ensures Composed(parts + [p]) == if p.partId == "" then Composed(parts) else Put(PART_KEY, Composed(parts), p)
  {
    assert (parts + [p])[..|parts|] == parts;
    UpsertFromEmpty(PART_KEY, Named(parts));
    var named := Named(parts + [p]);
    if p.partId == "" {
      assert named == Named(parts);
    } else {
      assert named[..|named| - 1] == Named(parts) && named[|named| - 1] == p;
    }
  }

  /** The body of its loop over parts. */
  method AddPart(ghost before: seq<RunPart>, parts: seq<RunPart>, seen: set<string>, p: RunPart)
    returns (out: seq<RunPart>, seen': set<string>)
    requires parts == Composed(before)
    requires forall k :: k in seen <==> k in KeyList(PART_KEY, parts)
    ensures out == Composed(before + [p])
    ensures forall k :: k in seen' <==> k in KeyList(PART_KEY, out)
  {
    ComposedSnoc(before, p);
    out, seen' := parts, seen;
    if p.partId == "" {
      return;
    }
    PutKeys(PART_KEY, parts, p);
    if p.partId in seen {
      out := ReplaceAll(parts, p);
    } else {
      PutNew(PART_KEY, parts, p);
      out, seen' := parts + [p], seen + {p.partId};
    }
  }

  /** The inner loop of `mergeComposition`: overwrite every part with the id (there is exactly one). */
  method ReplaceAll(parts: seq<RunPart>, p: RunPart) returns (out: seq<RunPart>)
    requires Distinct(KeyList(PART_KEY, parts)) && p.partId in KeyList(PART_KEY, parts)
    ensures out == Put(PART_KEY, parts, p)
  {
    out := parts;
    for i := 0 to |parts|
      invariant |out| == |parts|
      invariant forall k :: 0 <= k < |out| ==> out[k] == if k < i && parts[k].partId == p.partId then p else parts[k]
    {
      if out[i].partId == p.partId {
        out := out[i := p];
      }
    }
    PutReplaces(PART_KEY, parts, p, out);
  }

  /** `mergeStorageSelections`: nested loops with a found flag. */
  method MergeStorage(base: seq<StorageSelection>, next: seq<StorageSelection>) returns (out: seq<StorageSelection>)
    ensures out == Upsert(STORAGE_KEY, base, next)
  {
    out := base;
    for n := 0 to |next|
      invariant out == Upsert(STORAGE_KEY, base, next[..n])
    {
      var selection := next[n];
      assert next[..n + 1][..n] == next[..n];
      var found := false;
      for i := 0 to |out|
        invariant forall k :: 0 <= k < i ==> STORAGE_KEY(out[k]) != STORAGE_KEY(selection)
      {
        if STORAGE_KEY(out[i]) == STORAGE_KEY(selection) {
          PutAtFirst(STORAGE_KEY, out, selection, i);
          out := out[i := selection];
          found := true;
          break;
        }
      }
      if !found {
        PutNew(STORAGE_KEY, out, selection);
        out := out + [selection];
      }
    }
    assert next[..|next|] == next;
  }

  /** Which of two merged reports decides what is not listed. */
  ghost predicate HeadedBy(base: Report, next: Report, merged: Report)
  {
    && merged.runId == base.runId && merged.reason == next.reason
    && merged.status == (if next.status == Unset then Complete else next.status)
    && merged.schema == (if base.schema != "" then base.schema else next.schema)
    && merged.commit in {base.commit, next.commit} && (merged.commit == "" ==> base.commit == next.commit == "")
  }

  lemma MergedIsHonest(base: Report, next: Report)
    ensures Honest(Merged(base, next))
  {
    SummarizedTallies(MergedVerdicts(base, next));
    RefreshedIsHonest(Assembled(base, next));
  }

  lemma MergedPromise(base: Report, next: Report)
    ensures HeadedBy(base, next, Merged(base, next)) && Honest(Merged(base, next))
  {
    MergedIsHonest(base, next);
  }

  /** Setting the merged lists in the report built from the merged verdicts and refreshing it. */
  lemma RefreshedOverBuilt(base: Report, next: Report, built: Report, whole: Report)
    requires built.runId == base.runId && built.schema == (if base.schema == "" then next.schema else base.schema)
    requires built.commit == (if base.commit == "" then next.commit else base.commit)
    requires built.verdicts == MergedVerdicts(base, next)
    requires built.summary == Summarized(built.verdicts) && built.levels == Levels.Rollups(built.verdicts)
    requires whole == built.(
               measurements := MergedMeasurements(base, next), partsCount := |MergedParts(base, next)|,
               parts := MergedParts(base, next), executions := MergedExecutions(base, next),
               storage := Upsert(STORAGE_KEY, base.storage, next.storage), incidents := MergedIncidents(base, next),
               status := if next.status == Unset then Complete else next.status, reason := next.reason)
    ensures Refreshed(whole) == Merged(base, next)
  {
  }

  method MergeReports(base: Report, next: Report) returns (r: Option<Report>)
    ensures r == Merge(base, next)
    ensures r.None? <==> base.commit != "" && next.commit != "" && base.commit != next.commit
    ensures r.Some? ==> HeadedBy(base, next, r.value) && Honest(r.value)
  {
    if base.commit != "" && next.commit != "" && base.commit != next.commit {
      return None;
    }
    IndexesCoherent();
    var verdicts := DedupeSlice(VERDICTS, base.verdicts + next.verdicts);
    var built := Build(base.runId, if base.schema == "" then next.schema else base.schema,
                       if base.commit == "" then next.commit else base.commit, verdicts);
    var measurements := DedupeSlice(MEASUREMENTS, base.measurements + next.measurements);
    var parts := MergeParts(base, next);
    var executions := DedupeThroughMap(EXECUTIONS, base.executions + next.executions);
    var storage := MergeStorage(base.storage, next.storage);
    var incidents := KeepFirstLoop(INCIDENT_KEY, base.incidents + next.incidents);
    var whole := built.(
      measurements := measurements, partsCount := |parts|, parts := parts, executions := executions,
      storage := storage, incidents := incidents,
      status := if next.status == Unset then Complete else next.status, reason := next.reason);
    RefreshedOverBuilt(base, next, built, whole);
    MergedPromise(base, next);
    var refreshed := RefreshCopy(whole);
    r := Some(refreshed);
  }
}
