/** `ResumeExecutionsWithOptions`, and how it composes with merging the resumed part back. */
module Resume {
  import opened Core
  import opened Text
  import opened Filtering
  import opened Keyed
  import opened Reports
  import opened ReportLaws

  function ExecutionKey(tr: string, variant: string, scenario: string): string
  {
    Join([tr, variant, scenario])
  }

  function KeyOf(tr: Requirement, scenario: string): string
  {
    ExecutionKey(tr.id, tr.variant, scenario)
  }

  // ---- what a prior report says about one execution key -------------------------

  predicate ExecutionAt(e: RunExecution, scenario: string, k: string)
  {
    e.scenario == scenario && ExecutionKey(e.tr, e.variant, e.scenario) == k
  }

  predicate VerdictAt(v: Verdict, scenario: string, k: string)
  {
    v.scenario == scenario && ExecutionKey(v.tr, v.variant, v.scenario) == k
  }

  predicate AnyExecution(es: seq<RunExecution>, scenario: string, k: string)
  {
    exists e :: e in es && ExecutionAt(e, scenario, k)
  }

  predicate AnyCompleted(es: seq<RunExecution>, scenario: string, k: string)
  {
    exists e :: e in es && ExecutionAt(e, scenario, k) && e.state == Completed
  }

  predicate AnyCompletedBadly(es: seq<RunExecution>, scenario: string, k: string)
  {
    exists e :: e in es && ExecutionAt(e, scenario, k) && e.state == Completed && Failing(e.outcome)
  }

  predicate AnyVerdict(vs: seq<Verdict>, scenario: string, k: string)
  {
    exists v :: v in vs && VerdictAt(v, scenario, k)
  }

  predicate AnyBadVerdict(vs: seq<Verdict>, scenario: string, k: string)
  {
    exists v :: v in vs && VerdictAt(v, scenario, k) && Failing(v.outcome)
  }

  predicate Known(prior: Report, scenario: string, k: string)
  {
    AnyExecution(prior.executions, scenario, k)
  }

  /** Completed, or only known from the verdicts of a report that recorded no execution for the key. */
  predicate Done(prior: Report, scenario: string, k: string)
  {
    || AnyCompleted(prior.executions, scenario, k)
    || (!Known(prior, scenario, k) && AnyVerdict(prior.verdicts, scenario, k))
  }

  predicate DoneBadly(prior: Report, scenario: string, k: string)
  {
    || AnyCompletedBadly(prior.executions, scenario, k)
    || (!Known(prior, scenario, k) && AnyBadVerdict(prior.verdicts, scenario, k))
  }

  predicate Skips(prior: Report, scenario: string, retryFailed: bool, k: string)
  {
    Done(prior, scenario, k) && (!retryFailed || !DoneBadly(prior, scenario, k))
  }

  function Pending(prior: Report, scenario: string, retryFailed: bool): Requirement -> bool
  {
    tr => !Skips(prior, scenario, retryFailed, KeyOf(tr, scenario))
  }

  function Resumed(selected: seq<Requirement>, prior: Report, scenario: string, retryFailed: bool): seq<Requirement>
  {
    Filter(Pending(prior, scenario, retryFailed), selected)
  }

  // ---- what is resumed, by the fields of the prior report's records ---------------------

  predicate RecordOf(e: RunExecution, tr: Requirement, scenario: string)
  {
    e.tr == tr.id && e.variant == tr.variant && e.scenario == scenario
  }

  predicate About(v: Verdict, tr: Requirement, scenario: string)
  {
    v.tr == tr.id && v.variant == tr.variant && v.scenario == scenario
  }

  /** Its record was not completed, or badly when failures are retried; without a record, no verdict is about it,
      or one of them fails when failures are retried. */
  ghost predicate ToResume(prior: Report, scenario: string, retryFailed: bool, tr: Requirement)
  {
    if exists e :: e in prior.executions && RecordOf(e, tr, scenario) then
      || (forall e :: e in prior.executions && RecordOf(e, tr, scenario) ==> e.state != Completed)
      || (retryFailed && exists e :: e in prior.executions && RecordOf(e, tr, scenario)
                                     && e.state == Completed && e.outcome in {Fail, Error})
    else
      || (forall v :: v in prior.verdicts ==> !About(v, tr, scenario))
      || (retryFailed && exists v :: v in prior.verdicts && About(v, tr, scenario) && v.outcome in {Fail, Error})
  }

  predicate PlainExecution(e: RunExecution)
  {
    NulFree(e.tr) && NulFree(e.variant) && NulFree(e.scenario)
  }

  predicate PlainName(tr: Requirement)
  {
    NulFree(tr.id) && NulFree(tr.variant)
  }

  /** No identifier holds a NUL byte, the separator of the joined keys. */
  predicate Plain(r: Report)
  {
    && (forall e :: e in r.executions ==> PlainExecution(e))
    && (forall v :: v in r.verdicts ==> PlainVerdict(v))
  }

  lemma SameKeyFields(tr: string, variant: string, scenario: string, tr': string, variant': string, scenario': string)
    requires NulFree(tr) && NulFree(variant) && NulFree(scenario)
    requires NulFree(tr') && NulFree(variant') && NulFree(scenario')
    ensures ExecutionKey(tr, variant, scenario) == ExecutionKey(tr', variant', scenario') <==>
            tr == tr' && variant == variant' && scenario == scenario'
  {
    var a, b := [tr, variant, scenario], [tr', variant', scenario'];
    if Join(a) == Join(b) {
      JoinInjective(a, b);
      assert a[0] == b[0] && a[1] == b[1] && a[2] == b[2];
    }
  }

  lemma KeysMeanFields(prior: Report, scenario: string, tr: Requirement)
    requires Plain(prior) && PlainName(tr) && NulFree(scenario)
    ensures forall e :: e in prior.executions ==> (ExecutionAt(e, scenario, KeyOf(tr, scenario)) <==> RecordOf(e, tr, scenario))
    ensures forall v :: v in prior.verdicts ==> (VerdictAt(v, scenario, KeyOf(tr, scenario)) <==> About(v, tr, scenario))
  {
    forall e | e in prior.executions
      ensures ExecutionAt(e, scenario, KeyOf(tr, scenario)) <==> RecordOf(e, tr, scenario)
    {
      SameKeyFields(e.tr, e.variant, e.scenario, tr.id, tr.variant, scenario);
    }
    forall v | v in prior.verdicts ensures VerdictAt(v, scenario, KeyOf(tr, scenario)) <==> About(v, tr, scenario) {
      SameKeyFields(v.tr, v.variant, v.scenario, tr.id, tr.variant, scenario);
    }
  }

  /** Exactly which requirements are resumed. */
  lemma ResumedExactly(selected: seq<Requirement>, prior: Report, scenario: string, retryFailed: bool, tr: Requirement)
    requires Plain(prior) && PlainName(tr) && NulFree(scenario)
    ensures tr in Resumed(selected, prior, scenario, retryFailed) <==>
            tr in selected && ToResume(prior, scenario, retryFailed, tr)
  {
    FilterMembers(Pending(prior, scenario, retryFailed), selected, tr);
    KeysMeanFields(prior, scenario, tr);
  }

  // ---- the imperative form ----------------------------------------------------------

  lemma AnySnocExecution(es: seq<RunExecution>, e: RunExecution, scenario: string, k: string)
    ensures AnyExecution(es + [e], scenario, k) <==> AnyExecution(es, scenario, k) || ExecutionAt(e, scenario, k)
    ensures AnyCompleted(es + [e], scenario, k) <==>
            AnyCompleted(es, scenario, k) || (ExecutionAt(e, scenario, k) && e.state == Completed)
    ensures AnyCompletedBadly(es + [e], scenario, k) <==>
            AnyCompletedBadly(es, scenario, k) || (ExecutionAt(e, scenario, k) && e.state == Completed && Failing(e.outcome))
  {
    assert e in es + [e];
    assert forall x :: x in es + [e] <==> x in es || x == e;
  }

  lemma ScanNext(es: seq<RunExecution>, e: RunExecution, scenario: string)
    ensures forall k :: AnyExecution(es + [e], scenario, k) <==> AnyExecution(es, scenario, k) || ExecutionAt(e, scenario, k)
    ensures forall k :: AnyCompleted(es + [e], scenario, k) <==>
              AnyCompleted(es, scenario, k) || (ExecutionAt(e, scenario, k) && e.state == Completed)
    ensures forall k :: AnyCompletedBadly(es + [e], scenario, k) <==>
              AnyCompletedBadly(es, scenario, k) || (ExecutionAt(e, scenario, k) && e.state == Completed && Failing(e.outcome))
  {
    forall k {
      AnySnocExecution(es, e, scenario, k);
    }
  }

  lemma AnySnocVerdict(vs: seq<Verdict>, v: Verdict, scenario: string, k: string)
    ensures AnyVerdict(vs + [v], scenario, k) <==> AnyVerdict(vs, scenario, k) || VerdictAt(v, scenario, k)
    ensures AnyBadVerdict(vs + [v], scenario, k) <==>
            AnyBadVerdict(vs, scenario, k) || (VerdictAt(v, scenario, k) && Failing(v.outcome))
  {
    assert v in vs + [v];
    assert forall x :: x in vs + [v] <==> x in vs || x == v;
  }

  method ScanExecutions(prior: Report, scenario: string)
    returns (known: set<string>, completed: set<string>, failed: set<string>)
    ensures forall k :: k in known <==> Known(prior, scenario, k)
    ensures forall k :: k in completed <==> AnyCompleted(prior.executions, scenario, k)
    ensures forall k :: k in failed <==> AnyCompletedBadly(prior.executions, scenario, k)
  {
    known, completed, failed := {}, {}, {};
    for i := 0 to |prior.executions|
      invariant forall k :: k in known <==> AnyExecution(prior.executions[..i], scenario, k)
      invariant forall k :: k in completed <==> AnyCompleted(prior.executions[..i], scenario, k)
      invariant forall k :: k in failed <==> AnyCompletedBadly(prior.executions[..i], scenario, k)
    {
      var e := prior.executions[i];
      assert prior.executions[..i + 1] == prior.executions[..i] + [e];
      ScanNext(prior.executions[..i], e, scenario);
      if e.scenario != scenario {
        continue;
      }
      var k := ExecutionKey(e.tr, e.variant, e.scenario);
      known := known + {k};
      if e.state == Completed {
        completed := completed + {k};
        if Failing(e.outcome) {
          failed := failed + {k};
        }
      }
    }
    assert prior.executions[..|prior.executions|] == prior.executions;
  }

  /** The fallback for reports without execution records. */
  method ScanVerdicts(prior: Report, scenario: string, known: set<string>)
    returns (completed: set<string>, failed: set<string>)
    ensures forall k :: k in completed <==> k !in known && AnyVerdict(prior.verdicts, scenario, k)
    ensures forall k :: k in failed <==> k !in known && AnyBadVerdict(prior.verdicts, scenario, k)
  {
    completed, failed := {}, {};
    for i := 0 to |prior.verdicts|
      invariant forall k :: k in completed <==> k !in known && AnyVerdict(prior.verdicts[..i], scenario, k)
      invariant forall k :: k in failed <==> k !in known && AnyBadVerdict(prior.verdicts[..i], scenario, k)
    {
      var v := prior.verdicts[i];
      assert prior.verdicts[..i + 1] == prior.verdicts[..i] + [v];
      forall k {
        AnySnocVerdict(prior.verdicts[..i], v, scenario, k);
      }
      if v.scenario != scenario {
        continue;
      }
      var k := ExecutionKey(v.tr, v.variant, v.scenario);
      if k in known {
        continue;
      }
      completed := completed + {k};
      if Failing(v.outcome) {
        failed := failed + {k};
      }
    }
    assert prior.verdicts[..|prior.verdicts|] == prior.verdicts;
  }

  method ResumeExecutions(selected: seq<Requirement>, prior: Report, scenario: string, retryFailed: bool)
    returns (out: seq<Requirement>)
    ensures out == Resumed(selected, prior, scenario, retryFailed)
    ensures Plain(prior) && NulFree(scenario) ==>
              forall tr :: PlainName(tr) ==> (tr in out <==> tr in selected && ToResume(prior, scenario, retryFailed, tr))
  {
    var known, completed, failed := ScanExecutions(prior, scenario);
    var legacyCompleted, legacyFailed := ScanVerdicts(prior, scenario, known);
    completed, failed := completed + legacyCompleted, failed + legacyFailed;
    out := [];
    for i := 0 to |selected|
      invariant out == Resumed(selected[..i], prior, scenario, retryFailed)
    {
      assert selected[..i + 1] == selected[..i] + [selected[i]];
      FilterSnoc(Pending(prior, scenario, retryFailed), selected[..i], selected[i]);
      var k := KeyOf(selected[i], scenario);
      assert k in completed <==> Done(prior, scenario, k);
      assert k in failed <==> DoneBadly(prior, scenario, k);
      if !(k in completed && (!retryFailed || k !in failed)) {
        out := out + [selected[i]];
      }
    }
    assert selected[..|selected|] == selected;
    forall tr | Plain(prior) && NulFree(scenario) && PlainName(tr)
      ensures tr in out <==> tr in selected && ToResume(prior, scenario, retryFailed, tr)
    {
      ResumedExactly(selected, prior, scenario, retryFailed, tr);
    }
  }

  // ---- composition with Merge ---------------------------------------------------------

  ghost predicate Resumes(resumed: seq<Requirement>, scenario: string, k: string)
  {
    exists tr :: tr in resumed && KeyOf(tr, scenario) == k
  }

  /** A run part that executed some of `resumed`: at most one record for each, or only verdicts as in a report that
      records no executions, and nothing about anything else. */
  ghost predicate PartOf(part: Report, resumed: seq<Requirement>, scenario: string)
  {
    && DistinctKeys(EXECUTIONS.key, part.executions)
    && (forall e :: e in part.executions ==> e.scenario == scenario && Resumes(resumed, scenario, EXECUTIONS.key(e)))
    && (forall v :: v in part.verdicts ==>
          v.scenario == scenario && Resumes(resumed, scenario, ExecutionKey(v.tr, v.variant, v.scenario)))
  }

  /** A verdict about this execution fails, and none listed after it, in `prior` or then in the part, replaces it. */
  ghost predicate FailureLeft(prior: Report, part: Report, scenario: string, k: string)
  {
    exists v :: IsLast(VERDICTS.key, prior.verdicts + part.verdicts, v) && VerdictAt(v, scenario, k) && Failing(v.outcome)
  }

  /** The part settled this execution. Its record decides if it has one: completed, and not badly if failures are
      retried. Its verdicts alone settle only what `prior` has no record of either, if failures are retried by
      replacing all that failed. */
  ghost predicate SettledBy(prior: Report, part: Report, scenario: string, retryFailed: bool, k: string)
  {
    if AnyExecution(part.executions, scenario, k) then
      AnyCompleted(part.executions, scenario, k) && (!retryFailed || !AnyCompletedBadly(part.executions, scenario, k))
    else
      && !AnyExecution(prior.executions, scenario, k)
      && (AnyVerdict(prior.verdicts, scenario, k) || AnyVerdict(part.verdicts, scenario, k))
      && (!retryFailed || !FailureLeft(prior, part, scenario, k))
  }

  ghost function Unsettled(prior: Report, part: Report, scenario: string, retryFailed: bool): Requirement -> bool
  {
    tr => !SettledBy(prior, part, scenario, retryFailed, KeyOf(tr, scenario))
  }

  lemma DistinctTable<T>(key: T -> string, xs: seq<T>, x: T)
    requires DistinctKeys(key, xs) && x in xs
    ensures key(x) in Table(key, xs) && Table(key, xs)[key(x)] == x
  {
    TableMembers(key, xs);
    var i :| 0 <= i < |xs| && xs[i] == x;
    var y := Table(key, xs)[key(x)];
    var j :| 0 <= j < |xs| && xs[j] == y;
    assert i == j;
  }

  /** A record of the later list is the one merged for its key. */
  lemma NextRecordWins<T>(ix: Index<T>, base: seq<T>, next: seq<T>, merged: seq<T>, x: T)
    requires RightBiasedUnion(ix, base, next, merged) && DistinctKeys(ix.key, next) && x in next
    ensures x in merged
    ensures forall y :: y in merged && ix.key(y) == ix.key(x) ==> y == x
  {
    var m := Table(ix.key, base) + Table(ix.key, next);
    DistinctTable(ix.key, next, x);
    assert m[ix.key(x)] == x;
    assert m[ix.key(x)] in merged;
  }

  lemma BaseRecordSurvives<T>(ix: Index<T>, base: seq<T>, next: seq<T>, merged: seq<T>, x: T)
    requires RightBiasedUnion(ix, base, next, merged) && DistinctKeys(ix.key, base) && x in base
    requires ix.key(x) !in Table(ix.key, next)
    ensures x in merged
  {
    var m := Table(ix.key, base) + Table(ix.key, next);
    DistinctTable(ix.key, base, x);
    assert m[ix.key(x)] == x;
    assert m[ix.key(x)] in merged;
  }

  /** A record the later list does not mention survives, and is the only one with its key. */
  lemma BaseRecordStays<T(!new)>(ix: Index<T>, base: seq<T>, next: seq<T>, merged: seq<T>, k: string)
    requires RightBiasedUnion(ix, base, next, merged) && DistinctKeys(ix.key, base)
    requires forall y :: y in next ==> ix.key(y) != k
    ensures forall x :: ix.key(x) == k ==> (x in merged <==> x in base)
  {
    assert k !in Table(ix.key, next) by {
      TableMembers(ix.key, next);
    }
    forall x | ix.key(x) == k ensures x in merged <==> x in base {
      if x in base {
        BaseRecordSurvives(ix, base, next, merged, x);
      }
      if x in merged {
        UnionMembers(ix, base, next, merged);
      }
    }
  }

  /** Verdicts of an execution the part does not mention are neither lost, added nor changed. */
  lemma PriorVerdictsStay(prior: Report, part: Report, scenario: string, k: string)
    requires Plain(prior) && Plain(part)
    requires forall v :: v in part.verdicts ==> ExecutionKey(v.tr, v.variant, v.scenario) != k
    ensures forall v :: v in Merged(prior, part).verdicts && VerdictAt(v, scenario, k) ==> v in prior.verdicts
    ensures forall v :: v in prior.verdicts && VerdictAt(v, scenario, k)
              ==> AnyVerdict(Merged(prior, part).verdicts, scenario, k)
  {
    MergedListsAreUnions(prior, part);
    UnionMembers(VERDICTS, prior.verdicts, part.verdicts, Merged(prior, part).verdicts);
    forall v | v in prior.verdicts && VerdictAt(v, scenario, k)
      ensures AnyVerdict(Merged(prior, part).verdicts, scenario, k)
    {
      PriorVerdictReplaced(prior.verdicts, part.verdicts, Merged(prior, part).verdicts, v);
    }
  }

  lemma PriorVerdictReplaced(base: seq<Verdict>, next: seq<Verdict>, merged: seq<Verdict>, v: Verdict)
    requires RightBiasedUnion(VERDICTS, base, next, merged) && (v in base || v in next)
    requires forall w :: w in base || w in next ==> PlainVerdict(w)
    ensures AnyVerdict(merged, v.scenario, ExecutionKey(v.tr, v.variant, v.scenario))
  {
    UnionMembers(VERDICTS, base, next, merged);
    var w :| w in merged && VERDICTS.key(w) == VERDICTS.key(v);
    VerdictFields(v, w);
    assert VerdictAt(w, v.scenario, ExecutionKey(v.tr, v.variant, v.scenario));
  }

  /** The part's record of an execution is the one merged. */
  lemma RecordedKey(
    prior: Report, part: Report, scenario: string, retryFailed: bool, k: string, e: RunExecution)
    requires DistinctKeys(EXECUTIONS.key, part.executions)
    requires e in part.executions && ExecutionAt(e, scenario, k)
    ensures Skips(Merged(prior, part), scenario, retryFailed, k) <==> SettledBy(prior, part, scenario, retryFailed, k)
  {
    var merged := Merged(prior, part);
    MergedListsAreUnions(prior, part);
    NextRecordWins(EXECUTIONS, prior.executions, part.executions, merged.executions, e);
    forall x | x in part.executions && EXECUTIONS.key(x) == EXECUTIONS.key(e) ensures x == e {
      DistinctTable(EXECUTIONS.key, part.executions, x);
      DistinctTable(EXECUTIONS.key, part.executions, e);
    }
    OnlyRecord(merged.executions, e, scenario, k);
    OnlyRecord(part.executions, e, scenario, k);
  }

  /** What the merged verdicts say about an execution. */
  lemma MergedVerdictsAt(prior: Report, part: Report, scenario: string, k: string)
    requires Plain(prior) && Plain(part)
    ensures var merged := Merged(prior, part).verdicts;
            && (AnyVerdict(merged, scenario, k) <==>
                  AnyVerdict(prior.verdicts, scenario, k) || AnyVerdict(part.verdicts, scenario, k))
            && (AnyBadVerdict(merged, scenario, k) <==> FailureLeft(prior, part, scenario, k))
  {
    var merged := Merged(prior, part).verdicts;
    MergedListsAreUnions(prior, part);
    MergedHoldsLast(prior, part);
    UnionMembers(VERDICTS, prior.verdicts, part.verdicts, merged);
    forall v | (v in prior.verdicts || v in part.verdicts) && VerdictAt(v, scenario, k)
      ensures AnyVerdict(merged, scenario, k)
    {
      PriorVerdictReplaced(prior.verdicts, part.verdicts, merged, v);
    }
  }

  lemma PriorRecordsStay(prior: Report, part: Report, scenario: string, k: string)
    requires DistinctKeys(EXECUTIONS.key, prior.executions)
    requires forall e :: e in part.executions ==> EXECUTIONS.key(e) != k
    ensures var merged := Merged(prior, part).executions;
            && (forall e :: EXECUTIONS.key(e) == k ==> (e in merged <==> e in prior.executions))
            && AnyExecution(merged, scenario, k) == AnyExecution(prior.executions, scenario, k)
            && AnyCompleted(merged, scenario, k) == AnyCompleted(prior.executions, scenario, k)
            && AnyCompletedBadly(merged, scenario, k) == AnyCompletedBadly(prior.executions, scenario, k)
  {
    var merged := Merged(prior, part).executions;
    MergedListsAreUnions(prior, part);
    BaseRecordStays(EXECUTIONS, prior.executions, part.executions, merged, k);
    SameRecords(merged, prior.executions, scenario, k);
  }

  /** A part without a record of an execution leaves `prior`'s, and adds verdicts to its. */
  lemma UnrecordedKey(
    prior: Report, part: Report, scenario: string, retryFailed: bool, k: string)
    requires Plain(prior) && Plain(part) && DistinctKeys(EXECUTIONS.key, prior.executions)
    requires !Skips(prior, scenario, retryFailed, k)
    requires forall e :: e in part.executions ==> EXECUTIONS.key(e) != k
    ensures Skips(Merged(prior, part), scenario, retryFailed, k) <==> SettledBy(prior, part, scenario, retryFailed, k)
  {
    PriorRecordsStay(prior, part, scenario, k);
    if !AnyExecution(prior.executions, scenario, k) {
      MergedVerdictsAt(prior, part, scenario, k);
    }
  }

  /** After the merge, an execution that was resumed is skipped exactly when the part settled it. */
  lemma ResumedKey(
    prior: Report, part: Report, resumed: seq<Requirement>, scenario: string, retryFailed: bool, k: string)
    requires Plain(prior) && Plain(part) && DistinctKeys(EXECUTIONS.key, prior.executions)
    requires PartOf(part, resumed, scenario) && !Skips(prior, scenario, retryFailed, k)
    ensures Skips(Merged(prior, part), scenario, retryFailed, k) <==> SettledBy(prior, part, scenario, retryFailed, k)
  {
    if AnyExecution(part.executions, scenario, k) {
      var e :| e in part.executions && ExecutionAt(e, scenario, k);
      RecordedKey(prior, part, scenario, retryFailed, k, e);
    } else {
      UnrecordedKey(prior, part, scenario, retryFailed, k);
    }
  }

  lemma OnlyRecord(es: seq<RunExecution>, e: RunExecution, scenario: string, k: string)
    requires e in es && ExecutionAt(e, scenario, k)
    requires forall x :: x in es && EXECUTIONS.key(x) == EXECUTIONS.key(e) ==> x == e
    ensures AnyExecution(es, scenario, k)
    ensures AnyCompleted(es, scenario, k) <==> e.state == Completed
    ensures AnyCompletedBadly(es, scenario, k) <==> e.state == Completed && Failing(e.outcome)
  {
    assert forall x :: ExecutionAt(x, scenario, k) ==> EXECUTIONS.key(x) == EXECUTIONS.key(e);
  }

  lemma SameRecords(es: seq<RunExecution>, fs: seq<RunExecution>, scenario: string, k: string)
    requires forall x :: EXECUTIONS.key(x) == k ==> (x in es <==> x in fs)
    ensures AnyExecution(es, scenario, k) == AnyExecution(fs, scenario, k)
    ensures AnyCompleted(es, scenario, k) == AnyCompleted(fs, scenario, k)
    ensures AnyCompletedBadly(es, scenario, k) == AnyCompletedBadly(fs, scenario, k)
  {
    assert forall x :: ExecutionAt(x, scenario, k) ==> EXECUTIONS.key(x) == k;
  }

  /** The part says nothing about `k`. */
  ghost predicate Silent(part: Report, k: string)
  {
    && (forall e :: e in part.executions ==> EXECUTIONS.key(e) != k)
    && (forall v :: v in part.verdicts ==> ExecutionKey(v.tr, v.variant, v.scenario) != k)
  }

  /** What the part is silent about reads the same before and after the merge. */
  lemma SilentKey(prior: Report, part: Report, scenario: string, k: string)
    requires Plain(prior) && Plain(part) && Silent(part, k)
    requires DistinctKeys(EXECUTIONS.key, prior.executions)
    ensures Done(Merged(prior, part), scenario, k) == Done(prior, scenario, k)
    ensures DoneBadly(Merged(prior, part), scenario, k) ==> DoneBadly(prior, scenario, k)
    ensures forall e :: EXECUTIONS.key(e) == k ==> (e in Merged(prior, part).executions <==> e in prior.executions)
  {
    PriorRecordsStay(prior, part, scenario, k);
    PriorVerdictsStay(prior, part, scenario, k);
    SameVerdicts(Merged(prior, part).verdicts, prior.verdicts, scenario, k);
  }

  lemma SameVerdicts(merged: seq<Verdict>, prior: seq<Verdict>, scenario: string, k: string)
    requires forall v :: v in merged && VerdictAt(v, scenario, k) ==> v in prior
    requires forall v :: v in prior && VerdictAt(v, scenario, k) ==> AnyVerdict(merged, scenario, k)
    ensures AnyVerdict(merged, scenario, k) == AnyVerdict(prior, scenario, k)
    ensures AnyBadVerdict(merged, scenario, k) ==> AnyBadVerdict(prior, scenario, k)
  {
  }

  lemma NotResumedSilent(
    selected: seq<Requirement>, prior: Report, part: Report, scenario: string, retryFailed: bool, k: string)
    requires Skips(prior, scenario, retryFailed, k)
    requires PartOf(part, Resumed(selected, prior, scenario, retryFailed), scenario)
    ensures Silent(part, k)
  {
    forall tr | tr in Resumed(selected, prior, scenario, retryFailed) ensures KeyOf(tr, scenario) != k {
      FilterMembers(Pending(prior, scenario, retryFailed), selected, tr);
    }
  }

  lemma ResumedStep(
    selected: seq<Requirement>, prior: Report, part: Report, scenario: string, retryFailed: bool, tr: Requirement)
    requires Plain(prior) && Plain(part) && tr in selected
    requires DistinctKeys(EXECUTIONS.key, prior.executions)
    requires PartOf(part, Resumed(selected, prior, scenario, retryFailed), scenario)
    ensures var k := KeyOf(tr, scenario);
            Skips(Merged(prior, part), scenario, retryFailed, k) <==>
            Skips(prior, scenario, retryFailed, k) || SettledBy(prior, part, scenario, retryFailed, k)
  {
    var k := KeyOf(tr, scenario);
    if Skips(prior, scenario, retryFailed, k) {
      NotResumedSilent(selected, prior, part, scenario, retryFailed, k);
      SilentKey(prior, part, scenario, k);
    } else {
      ResumedKey(prior, part, Resumed(selected, prior, scenario, retryFailed), scenario, retryFailed, k);
    }
  }

  /** Resuming after a merge resumes exactly what was resumed before and the part did not settle. */
  lemma ResumeAfterMerge(
    selected: seq<Requirement>, prior: Report, part: Report, scenario: string, retryFailed: bool)
    requires Plain(prior) && Plain(part)
    requires DistinctKeys(EXECUTIONS.key, prior.executions)
    requires PartOf(part, Resumed(selected, prior, scenario, retryFailed), scenario)
    ensures Resumed(selected, Merged(prior, part), scenario, retryFailed) ==
            Filter(Unsettled(prior, part, scenario, retryFailed), Resumed(selected, prior, scenario, retryFailed))
  {
    var both := Pending(Merged(prior, part), scenario, retryFailed);
    var first, second := Pending(prior, scenario, retryFailed), Unsettled(prior, part, scenario, retryFailed);
    forall tr | tr in selected ensures both(tr) <==> first(tr) && second(tr) {
      ResumedStep(selected, prior, part, scenario, retryFailed, tr);
    }
    FilterTwice(both, first, second, selected);
  }

  /** A skipped execution's record and verdicts come through the merge unchanged. */
  lemma CompletedResultsKept(
    selected: seq<Requirement>, prior: Report, part: Report, scenario: string, retryFailed: bool, k: string)
    requires Plain(prior) && Plain(part)
    requires DistinctKeys(EXECUTIONS.key, prior.executions) && DistinctKeys(VERDICTS.key, prior.verdicts)
    requires PartOf(part, Resumed(selected, prior, scenario, retryFailed), scenario)
    requires Skips(prior, scenario, retryFailed, k)
    ensures forall e :: EXECUTIONS.key(e) == k ==> (e in Merged(prior, part).executions <==> e in prior.executions)
    ensures forall v :: VerdictAt(v, scenario, k) ==> (v in Merged(prior, part).verdicts <==> v in prior.verdicts)
  {
    NotResumedSilent(selected, prior, part, scenario, retryFailed, k);
    SilentKey(prior, part, scenario, k);
    PriorVerdictsStay(prior, part, scenario, k);
    var merged := Merged(prior, part).verdicts;
    MergedListsAreUnions(prior, part);
    forall v | VerdictAt(v, scenario, k) && v in prior.verdicts ensures v in merged {
      forall w | w in part.verdicts ensures VERDICTS.key(w) != VERDICTS.key(v) {
        if VERDICTS.key(w) == VERDICTS.key(v) {
          VerdictFields(w, v);
        }
      }
      BaseRecordStays(VERDICTS, prior.verdicts, part.verdicts, merged, VERDICTS.key(v));
    }
  }

  // ---- campaigns -------------------------------------------------------------------------

  ghost function CampaignReport(prior: Report, parts: seq<Report>): Report
    decreases |parts|
  {
    if parts == [] then prior else CampaignReport(Merged(prior, parts[0]), parts[1..])
  }

  /** Each part runs what is then resumed, and settles at least one of them while any are left. */
  ghost predicate Campaign(
    selected: seq<Requirement>, prior: Report, parts: seq<Report>, scenario: string, retryFailed: bool)
    decreases |parts|
  {
    parts == [] ||
    (var resumed := Resumed(selected, prior, scenario, retryFailed);
     && Plain(parts[0]) && PartOf(parts[0], resumed, scenario)
     && (resumed == [] || exists tr :: tr in resumed && SettledBy(prior, parts[0], scenario, retryFailed, KeyOf(tr, scenario)))
     && Campaign(selected, Merged(prior, parts[0]), parts[1..], scenario, retryFailed))
  }

  lemma MergedStaysPlain(prior: Report, part: Report)
    requires Plain(prior) && Plain(part)
    ensures Plain(Merged(prior, part)) && DistinctKeys(EXECUTIONS.key, Merged(prior, part).executions)
  {
    var merged := Merged(prior, part);
    MergedListsAreUnions(prior, part);
    UnionMembers(EXECUTIONS, prior.executions, part.executions, merged.executions);
    UnionMembers(VERDICTS, prior.verdicts, part.verdicts, merged.verdicts);
  }

  /** A campaign of as many parts as there were executions left has nothing left to run. */
  lemma {:induction false} CampaignFinishes(
    selected: seq<Requirement>, prior: Report, parts: seq<Report>, scenario: string, retryFailed: bool)
    requires Plain(prior) && DistinctKeys(EXECUTIONS.key, prior.executions)
    requires Campaign(selected, prior, parts, scenario, retryFailed)
    ensures var left := |Resumed(selected, CampaignReport(prior, parts), scenario, retryFailed)|;
            var start := |Resumed(selected, prior, scenario, retryFailed)|;
            left <= start && left <= if start <= |parts| then 0 else start - |parts|
    decreases |parts|
  {
    if parts != [] {
      var resumed := Resumed(selected, prior, scenario, retryFailed);
      ResumeAfterMerge(selected, prior, parts[0], scenario, retryFailed);
      FilterShrinks(Unsettled(prior, parts[0], scenario, retryFailed), resumed);
      MergedStaysPlain(prior, parts[0]);
      CampaignFinishes(selected, Merged(prior, parts[0]), parts[1..], scenario, retryFailed);
    }
  }
}
