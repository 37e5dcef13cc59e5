/**
 The checkpoint as the orchestrator drives it: snapshots and incidents interleaved. The orchestrator
 numbers an incident without an id in its own log, which the snapshots carry, and hands the
 incident on to the checkpoint as it was.
 */
module Interleaving {
  import opened Core
  import opened Keyed
  import opened Appending
  import opened Reports
  import opened ReportLaws
  import opened Checkpoint

  datatype Call = Snapshot(report: Report) | Record(incident: Incident)

  /** The id given to the n-th incident of a run. */
  type Numbering = nat -> string

  function Numbered(number: Numbering, n: nat, incident: Incident): Incident
  {
    if incident.id == "" then incident.(id := number(n)) else incident
  }

  /** The orchestrator's own incident log. */
  function LogAfter(number: Numbering, calls: seq<Call>): seq<Incident>
  {
    if calls == [] then []
    else
      var log := LogAfter(number, calls[..|calls| - 1]);
      match calls[|calls| - 1]
      case Snapshot(_) => log
      case Record(incident) => log + [Numbered(number, |log| + 1, incident)]
  }

  ghost function Called(latest: Report, call: Call): Report
  {
    match call
    case Snapshot(report) => Saved(latest, report)
    case Record(incident) => Recorded(latest, incident)
  }

  ghost function After(base: Report, calls: seq<Call>): Report
  {
    if calls == [] then base else Called(After(base, calls[..|calls| - 1]), calls[|calls| - 1])
  }

  lemma AfterNext(base: Report, calls: seq<Call>, call: Call)
    ensures After(base, calls + [call]) == Called(After(base, calls), call)
  {
    assert (calls + [call])[..|calls|] == calls;
  }

  /** Every snapshot carries the log as it then was and grows into `last`, which carries the whole log. */
  ghost predicate Carried(number: Numbering, calls: seq<Call>, last: Report)
  {
    && LogAfter(number, calls) <= last.incidents
    && forall n :: 0 <= n < |calls| && calls[n].Snapshot? ==>
         GrowsInto(calls[n].report, last) && calls[n].report.incidents == LogAfter(number, calls[..n])
  }

  lemma CarriedBefore(number: Numbering, calls: seq<Call>, call: Call, last: Report)
    requires Carried(number, calls + [call], last)
    ensures Carried(number, calls, last)
    ensures call.Snapshot? ==> GrowsInto(call.report, last) && call.report.incidents == LogAfter(number, calls)
  {
    var all := calls + [call];
    assert all[..|calls|] == calls && all[|calls|] == call;
    forall n | 0 <= n < |calls| && calls[n].Snapshot?
      ensures GrowsInto(calls[n].report, last) && calls[n].report.incidents == LogAfter(number, calls[..n])
    {
      assert all[n] == calls[n] && all[..n] == calls[..n];
    }
  }

  // ---- everything but the incidents --------------------------------------------------------------

  /** Merging `last` gives the same lists and header from here as from `base`. */
  ghost predicate OnCourse(base: Report, last: Report, latest: Report)
  {
    && latest.runId == base.runId && Mergeable(latest, last)
    && (if latest.schema == "" then last.schema else latest.schema) == (if base.schema == "" then last.schema else base.schema)
    && (if latest.commit == "" then last.commit else latest.commit) == (if base.commit == "" then last.commit else base.commit)
    && MergedVerdicts(latest, last) == MergedVerdicts(base, last)
    && MergedMeasurements(latest, last) == MergedMeasurements(base, last)
    && MergedExecutions(latest, last) == MergedExecutions(base, last)
  }

  lemma MergedHeader(latest: Report, s: Report)
    ensures var r := Merged(latest, s);
            && r.runId == latest.runId
            && r.schema == (if latest.schema == "" then s.schema else latest.schema)
            && r.commit == (if latest.commit == "" then s.commit else latest.commit)
  {
  }

  lemma SnapshotStaysOnCourse(base: Report, last: Report, latest: Report, s: Report)
    requires base.runId != "" && OnCourse(base, last, latest) && GrowsInto(s, last)
    ensures Mergeable(latest, s) && OnCourse(base, last, Saved(latest, s))
  {
    MergedHeader(latest, s);
    VerdictsAbsorbed(latest, s, last);
    MeasurementsAbsorbed(latest, s, last);
    ExecutionsAbsorbed(latest, s, last);
  }

  lemma SameTableMerges<T(!new)>(ix: Index<T>, xs: seq<T>, ys: seq<T>, last: seq<T>)
    requires Coherent(ix) && Table(ix.key, xs) == Table(ix.key, ys)
    ensures Dedupe(ix, xs + last) == Dedupe(ix, ys + last)
  {
    TableConcat(ix.key, xs, last);
    TableConcat(ix.key, ys, last);
    DedupeCanonical(ix, xs + last, ys + last);
  }

  lemma RecordedHeader(latest: Report, incident: Incident)
    ensures var r := Recorded(latest, incident);
            r.runId == latest.runId && r.schema == latest.schema && r.commit == latest.commit
  {
  }

  lemma RecordedLists(latest: Report, incident: Incident, last: Report)
    requires latest.runId != ""
    ensures MergedVerdicts(Recorded(latest, incident), last) == MergedVerdicts(latest, last)
    ensures MergedMeasurements(Recorded(latest, incident), last) == MergedMeasurements(latest, last)
    ensures MergedExecutions(Recorded(latest, incident), last) == MergedExecutions(latest, last)
  {
    var r := Recorded(latest, incident);
    RecordedMeaning(latest, incident);
    IndexesCoherent();
    SameTableMerges(VERDICTS, r.verdicts, latest.verdicts, last.verdicts);
    SameTableMerges(MEASUREMENTS, r.measurements, latest.measurements, last.measurements);
    SameTableMerges(EXECUTIONS, r.executions, latest.executions, last.executions);
  }

  lemma RecordStaysOnCourse(base: Report, last: Report, latest: Report, incident: Incident)
    requires base.runId != "" && OnCourse(base, last, latest)
    ensures OnCourse(base, last, Recorded(latest, incident))
  {
    RecordedHeader(latest, incident);
    RecordedLists(latest, incident, last);
  }

  lemma {:induction false} StaysOnCourse(number: Numbering, base: Report, calls: seq<Call>, last: Report)
    requires base.runId != "" && Mergeable(base, last) && Carried(number, calls, last)
    ensures OnCourse(base, last, After(base, calls))
  {
    if calls != [] {
      var init, call := calls[..|calls| - 1], calls[|calls| - 1];
      assert calls == init + [call];
      CarriedBefore(number, init, call, last);
      StaysOnCourse(number, base, init, last);
      match call {
        case Snapshot(s) => SnapshotStaysOnCourse(base, last, After(base, init), s);
        case Record(incident) => RecordStaysOnCourse(base, last, After(base, init), incident);
      }
    }
  }

  // ---- with ids, the incidents too --------------------------------------------------------------

  predicate AllNumbered(calls: seq<Call>)
  {
    forall n :: 0 <= n < |calls| && calls[n].Record? ==> calls[n].incident.id != ""
  }

  lemma {:induction false} IncidentsFollowLog(number: Numbering, base: Report, calls: seq<Call>, last: Report)
    requires base.runId != "" && Mergeable(base, last) && Carried(number, calls, last) && AllNumbered(calls)
    ensures KeepFirst(INCIDENT_KEY, After(base, calls).incidents)
         == KeepFirst(INCIDENT_KEY, base.incidents + LogAfter(number, calls))
  {
    if calls == [] {
      assert base.incidents + [] == base.incidents;
    } else {
      var init, call := calls[..|calls| - 1], calls[|calls| - 1];
      assert calls == init + [call];
      CarriedBefore(number, init, call, last);
      IncidentsFollowLog(number, base, init, last);
      StaysOnCourse(number, base, init, last);
      IncidentsNext(base, last, After(base, init), LogAfter(number, init), call);
    }
  }

  lemma IncidentsNext(base: Report, last: Report, latest: Report, log: seq<Incident>, call: Call)
    requires base.runId != "" && OnCourse(base, last, latest)
    requires call.Snapshot? ==> GrowsInto(call.report, last) && call.report.incidents == log
    requires KeepFirst(INCIDENT_KEY, latest.incidents) == KeepFirst(INCIDENT_KEY, base.incidents + log)
    ensures KeepFirst(INCIDENT_KEY, Called(latest, call).incidents)
         == KeepFirst(INCIDENT_KEY, base.incidents + if call.Snapshot? then log else log + [call.incident])
  {
    match call {
      case Snapshot(s) =>
        SnapshotStaysOnCourse(base, last, latest, s);
        SnapshotAddsLog(base.incidents, latest.incidents, log);
      case Record(incident) =>
        RecordedMeaning(latest, incident);
        RecordAddsOne(base.incidents, latest.incidents, log, incident);
    }
  }

  lemma SnapshotAddsLog(base: seq<Incident>, latest: seq<Incident>, log: seq<Incident>)
    requires KeepFirst(INCIDENT_KEY, latest) == KeepFirst(INCIDENT_KEY, base + log)
    ensures KeepFirst(INCIDENT_KEY, KeepFirst(INCIDENT_KEY, latest + log)) == KeepFirst(INCIDENT_KEY, base + log)
  {
    KeepFirstIdempotent(INCIDENT_KEY, latest + log);
    KeepFirstConcat(INCIDENT_KEY, latest, log);
    assert log + [] == log;
    GrowingLogAbsorbed(INCIDENT_KEY, base, log, []);
  }

  lemma RecordAddsOne(base: seq<Incident>, latest: seq<Incident>, log: seq<Incident>, incident: Incident)
    requires KeepFirst(INCIDENT_KEY, latest) == KeepFirst(INCIDENT_KEY, base + log)
    ensures KeepFirst(INCIDENT_KEY, latest + [incident]) == KeepFirst(INCIDENT_KEY, base + (log + [incident]))
  {
    KeepFirstConcat(INCIDENT_KEY, latest, [incident]);
    KeepFirstConcat(INCIDENT_KEY, base + log, [incident]);
    assert base + log + [incident] == base + (log + [incident]);
  }

  lemma LogIsAbsorbed(base: seq<Incident>, latest: seq<Incident>, log: seq<Incident>, last: seq<Incident>)
    requires KeepFirst(INCIDENT_KEY, latest) == KeepFirst(INCIDENT_KEY, base + log) && log <= last
    ensures KeepFirst(INCIDENT_KEY, latest + last) == KeepFirst(INCIDENT_KEY, base + last)
  {
    assert last == log + last[|log|..];
    KeepFirstConcat(INCIDENT_KEY, latest, last);
    GrowingLogAbsorbed(INCIDENT_KEY, base, log, last[|log|..]);
  }

  /** Whatever is interleaved, incidents with ids leave the report one merge of the last snapshot gives. */
  lemma InterleavedEqualsOneMerge(number: Numbering, base: Report, calls: seq<Call>, last: Report)
    requires base.runId != "" && Mergeable(base, last) && Carried(number, calls, last) && AllNumbered(calls)
    ensures SameResults(After(base, calls + [Snapshot(last)]), Merged(base, last))
  {
    var latest := After(base, calls);
    FinalSave(number, base, calls, last);
    StaysOnCourse(number, base, calls, last);
    IncidentsFollowLog(number, base, calls, last);
    LogIsAbsorbed(base.incidents, latest.incidents, LogAfter(number, calls), last.incidents);
    MergesAgree(latest, last, base, last);
  }

  lemma FinalSave(number: Numbering, base: Report, calls: seq<Call>, last: Report)
    requires base.runId != "" && Mergeable(base, last) && Carried(number, calls, last)
    ensures After(base, calls + [Snapshot(last)]) == Merged(After(base, calls), last)
  {
    AfterNext(base, calls, Snapshot(last));
    StaysOnCourse(number, base, calls, last);
  }

  // ---- without ids ----------------------------------------------------------------------------

  /** The call records an incident with this key. */
  predicate Records(call: Call, k: string)
  {
    call.Record? && INCIDENT_KEY(call.incident) == k
  }

  ghost predicate RecordsKey(calls: seq<Call>, k: string)
  {
    exists call :: call in calls && Records(call, k)
  }

  lemma RecordedKeys(latest: Report, incident: Incident, k: string)
    requires latest.runId != ""
    ensures HasKey(INCIDENT_KEY, Recorded(latest, incident).incidents, k)
       <==> HasKey(INCIDENT_KEY, latest.incidents, k) || k == INCIDENT_KEY(incident)
  {
    RecordedMeaning(latest, incident);
    KeepFirstKeys(INCIDENT_KEY, Recorded(latest, incident).incidents, k);
    KeepFirstKeys(INCIDENT_KEY, latest.incidents + [incident], k);
    HasKeyConcat(INCIDENT_KEY, latest.incidents, [incident], k);
    assert incident in [incident];
  }

  lemma MergedKeys(a: Report, b: Report, k: string)
    ensures HasKey(INCIDENT_KEY, Merged(a, b).incidents, k)
       <==> HasKey(INCIDENT_KEY, a.incidents, k) || HasKey(INCIDENT_KEY, b.incidents, k)
  {
    KeepFirstKeys(INCIDENT_KEY, a.incidents + b.incidents, k);
    HasKeyConcat(INCIDENT_KEY, a.incidents, b.incidents, k);
  }

  lemma CalledKeys(base: Report, last: Report, latest: Report, call: Call, k: string)
    requires base.runId != "" && OnCourse(base, last, latest)
    requires call.Snapshot? ==> GrowsInto(call.report, last)
    ensures HasKey(INCIDENT_KEY, Called(latest, call).incidents, k)
       <==> HasKey(INCIDENT_KEY, latest.incidents, k) || Records(call, k)
            || (call.Snapshot? && HasKey(INCIDENT_KEY, call.report.incidents, k))
  {
    match call {
      case Snapshot(s) =>
        SnapshotStaysOnCourse(base, last, latest, s);
        MergedKeys(latest, s, k);
      case Record(incident) => RecordedKeys(latest, incident, k);
    }
  }

  lemma SnapshotKeys(s: Report, last: Report, k: string)
    requires GrowsInto(s, last) && HasKey(INCIDENT_KEY, s.incidents, k)
    ensures HasKey(INCIDENT_KEY, last.incidents, k)
  {
    assert last.incidents == s.incidents + last.incidents[|s.incidents|..];
    HasKeyConcat(INCIDENT_KEY, s.incidents, last.incidents[|s.incidents|..], k);
  }

  lemma RecordsNext(calls: seq<Call>, call: Call, k: string)
    ensures RecordsKey(calls + [call], k) <==> RecordsKey(calls, k) || Records(call, k)
  {
    assert forall x :: x in calls + [call] <==> x in calls || x == call;
  }

  /** The start's and the recorded keys are all there, and none but theirs and the last snapshot's. */
  ghost predicate KeysBounded(base: Report, calls: seq<Call>, last: Report, latest: Report, k: string)
  {
    && (HasKey(INCIDENT_KEY, base.incidents, k) || RecordsKey(calls, k) ==> HasKey(INCIDENT_KEY, latest.incidents, k))
    && (HasKey(INCIDENT_KEY, latest.incidents, k) ==>
          HasKey(INCIDENT_KEY, base.incidents, k) || HasKey(INCIDENT_KEY, last.incidents, k) || RecordsKey(calls, k))
  }

  lemma KeysNext(base: Report, calls: seq<Call>, call: Call, last: Report, latest: Report, k: string)
    requires base.runId != "" && OnCourse(base, last, latest) && KeysBounded(base, calls, last, latest, k)
    requires call.Snapshot? ==> GrowsInto(call.report, last)
    ensures KeysBounded(base, calls + [call], last, Called(latest, call), k)
  {
    CalledKeys(base, last, latest, call, k);
    RecordsNext(calls, call, k);
    if call.Snapshot? && HasKey(INCIDENT_KEY, call.report.incidents, k) {
      SnapshotKeys(call.report, last, k);
    }
  }

  lemma {:induction false} KeysAfter(number: Numbering, base: Report, calls: seq<Call>, last: Report, k: string)
    requires base.runId != "" && Mergeable(base, last) && Carried(number, calls, last)
    ensures KeysBounded(base, calls, last, After(base, calls), k)
  {
    if calls != [] {
      var init, call := calls[..|calls| - 1], calls[|calls| - 1];
      assert calls == init + [call];
      CarriedBefore(number, init, call, last);
      KeysAfter(number, base, init, last, k);
      StaysOnCourse(number, base, init, last);
      KeysNext(base, init, call, last, After(base, init), k);
    }
  }

  ghost predicate SameIncidentKeys(a: Report, b: Report)
  {
    forall k :: HasKey(INCIDENT_KEY, a.incidents, k) <==> HasKey(INCIDENT_KEY, b.incidents, k)
  }

  lemma EndKeys(number: Numbering, base: Report, calls: seq<Call>, last: Report, k: string)
    requires base.runId != "" && Mergeable(base, last) && Carried(number, calls, last)
    ensures HasKey(INCIDENT_KEY, After(base, calls + [Snapshot(last)]).incidents, k)
       <==> HasKey(INCIDENT_KEY, base.incidents + last.incidents, k) || RecordsKey(calls, k)
    ensures HasKey(INCIDENT_KEY, Merged(base, last).incidents, k)
       <==> HasKey(INCIDENT_KEY, base.incidents + last.incidents, k)
  {
    FinalSave(number, base, calls, last);
    KeysAfter(number, base, calls, last, k);
    MergedKeys(After(base, calls), last, k);
    MergedKeys(base, last, k);
    HasKeyConcat(INCIDENT_KEY, base.incidents, last.incidents, k);
  }

  lemma KeysAgreeExactly(end: seq<Incident>, one: seq<Incident>, listed: seq<Incident>, calls: seq<Call>)
    requires forall k :: HasKey(INCIDENT_KEY, end, k) <==> HasKey(INCIDENT_KEY, listed, k) || RecordsKey(calls, k)
    requires forall k :: HasKey(INCIDENT_KEY, one, k) <==> HasKey(INCIDENT_KEY, listed, k)
    ensures (forall k :: HasKey(INCIDENT_KEY, end, k) <==> HasKey(INCIDENT_KEY, one, k))
       <==> forall k :: RecordsKey(calls, k) ==> HasKey(INCIDENT_KEY, listed, k)
  {
  }

  /** The incidents are those of one merge of the last snapshot exactly when each recorded one has, as it was
      recorded, a key of the checkpoint's start or of the last snapshot. */
  lemma InterleavedExactly(number: Numbering, base: Report, calls: seq<Call>, last: Report)
    requires base.runId != "" && Mergeable(base, last) && Carried(number, calls, last)
    ensures SameIncidentKeys(After(base, calls + [Snapshot(last)]), Merged(base, last))
       <==> forall k :: RecordsKey(calls, k) ==> HasKey(INCIDENT_KEY, base.incidents + last.incidents, k)
  {
    var end, one := After(base, calls + [Snapshot(last)]), Merged(base, last);
    var listed := base.incidents + last.incidents;
    forall k
      ensures HasKey(INCIDENT_KEY, end.incidents, k) <==> HasKey(INCIDENT_KEY, listed, k) || RecordsKey(calls, k)
      ensures HasKey(INCIDENT_KEY, one.incidents, k) <==> HasKey(INCIDENT_KEY, listed, k)
    {
      EndKeys(number, base, calls, last, k);
    }
    KeysAgreeExactly(end.incidents, one.incidents, listed, calls);
  }

  lemma SameResultsSameKeys(a: Report, b: Report, k: string)
    requires SameResults(a, b)
    ensures HasKey(INCIDENT_KEY, a.incidents, k) <==> HasKey(INCIDENT_KEY, b.incidents, k)
  {
  }

  /** So, where nothing listed is keyed like an incident without an id: exactly when every one recorded has one. */
  lemma IdsDecide(number: Numbering, base: Report, calls: seq<Call>, last: Report)
    requires base.runId != "" && Mergeable(base, last) && Carried(number, calls, last)
    requires forall call :: call in calls && call.Record? && call.incident.id == "" ==>
               !HasKey(INCIDENT_KEY, base.incidents + last.incidents, INCIDENT_KEY(call.incident))
    ensures SameResults(After(base, calls + [Snapshot(last)]), Merged(base, last)) <==> AllNumbered(calls)
  {
    if AllNumbered(calls) {
      InterleavedEqualsOneMerge(number, base, calls, last);
    } else {
      var n :| 0 <= n < |calls| && calls[n].Record? && calls[n].incident.id == "";
      LeftOverKey(number, base, calls, last, calls[n]);
    }
  }

  lemma LeftOverKey(number: Numbering, base: Report, calls: seq<Call>, last: Report, call: Call)
    requires base.runId != "" && Mergeable(base, last) && Carried(number, calls, last)
    requires call in calls && call.Record?
    requires !HasKey(INCIDENT_KEY, base.incidents + last.incidents, INCIDENT_KEY(call.incident))
    ensures !SameResults(After(base, calls + [Snapshot(last)]), Merged(base, last))
  {
    var end, k := After(base, calls + [Snapshot(last)]), INCIDENT_KEY(call.incident);
    assert RecordsKey(calls, k);
    EndKeys(number, base, calls, last, k);
    if SameResults(end, Merged(base, last)) {
      SameResultsSameKeys(end, Merged(base, last), k);
    }
  }

  lemma KeepTwo(x: Incident, y: Incident)
    ensures KeepFirst(INCIDENT_KEY, [x]) == [x]
    ensures INCIDENT_KEY(x) != INCIDENT_KEY(y) ==> KeepFirst(INCIDENT_KEY, [x, y]) == [x, y]
  {
    assert [x][..0] == [] && [x, y][..1] == [x];
  }

  lemma RecordedAlone(base: Report, incident: Incident)
    requires base.runId != "" && base.incidents == []
    ensures Recorded(base, incident).incidents == [incident]
  {
    KeepTwo(incident, incident);
    assert base.incidents + [incident] == [incident];
    assert base.incidents + (base.incidents + [incident]) == [incident];
  }

  lemma SavedIsMerged(latest: Report, snapshot: Report)
    requires latest.runId != "" && Mergeable(latest, snapshot)
    ensures Saved(latest, snapshot) == Merged(latest, snapshot)
  {
  }

  lemma AfterTwo(base: Report, first: Call, second: Call)
    ensures After(base, [first, second]) == Called(Called(base, first), second)
  {
    AfterNext(base, [], first);
    AfterNext(base, [first], second);
    assert [] + [first] == [first] && [first] + [second] == [first, second];
  }

  lemma MergedLogs(recorded: Report, base: Report, last: Report, incident: Incident, numbered: Incident)
    requires recorded.incidents == [incident] && base.incidents == [] && last.incidents == [numbered]
    requires INCIDENT_KEY(incident) != INCIDENT_KEY(numbered)
    ensures Merged(recorded, last).incidents == [incident, numbered] && Merged(base, last).incidents == [numbered]
  {
    KeepTwo(incident, numbered);
    KeepTwo(numbered, incident);
    assert recorded.incidents + last.incidents == [incident, numbered];
    assert base.incidents + last.incidents == [numbered];
  }

  /** An incident without an id, recorded once on an empty log, is listed twice: as it was, and numbered. */
  lemma BothKeysSurvive(number: Numbering, base: Report, incident: Incident, last: Report)
    requires base.runId != "" && Mergeable(base, last) && base.incidents == []
    requires incident.id == "" && number(1) !in {"", INCIDENT_KEY(incident)}
    requires last.incidents == [incident.(id := number(1))]
    ensures After(base, [Record(incident), Snapshot(last)]).incidents == [incident, incident.(id := number(1))]
    ensures Merged(base, last).incidents == [incident.(id := number(1))]
  {
    RecordedAlone(base, incident);
    RecordedHeader(base, incident);
    SavedIsMerged(Recorded(base, incident), last);
    AfterTwo(base, Record(incident), Snapshot(last));
    MergedLogs(Recorded(base, incident), base, last, incident, incident.(id := number(1)));
  }
}
