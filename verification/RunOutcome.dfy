/** How `Run` ends: the state of every selected execution, the report status, and setup bracketing. */
module RunOutcome {
  import opened Core
  import opened Filtering
  import opened Grouping
  import opened Setups
  import opened Progress
  import opened RunDriver

  /** A whole run: its plan and its history, phase by phase. */
  datatype RunLog = RunLog(
    setups: seq<Scoped>,        // shared setups, in the order tried
    ran: seq<nat>,              // those that succeeded
    left: seq<Requirement>,     // requirements that reach jobs
    jobs: seq<Job>,
    partition: seq<Event>,
    setup: seq<Event>,
    work: seq<Event>,
    graded: seq<seq<Verdict>>,  // the results behind each event of the jobs
    teardown: seq<Event>)

  datatype RunEnd = RunEnd(
    status: RunStatus, reason: string, executions: map<string, RunExecution>, incidents: seq<Incident>)

  ghost function Events(log: RunLog): seq<Event>
  {
    log.partition + log.setup + log.work
  }

  /** What every run of `selected` leaves behind: a log satisfies this whatever fails, is cancelled or overtakes
      another, and each phase is taken by its contract, so some logs that satisfy it no run leaves. */
  ghost predicate IsLog(resolve: Resolver, sched: map<string, Override>, providers: Providers,
                        selected: seq<Requirement>, log: RunLog)
  {
    && Partitioned(resolve, selected, log.partition)
    && Arrangement(resolve, providers, Filter(Scorable(resolve), selected), log.setups)
    && SetupsDone(log.setups, Filter(Scorable(resolve), selected), log.ran, log.left, log.setup)
    && Grouped(resolve, sched, log.left, log.jobs)
    && Worked(log.jobs, {}, log.work, log.graded)
    && log.teardown == TearDowns(log.ran)
  }

  // ---- which executions are settled ---------------------------------------------------------

  /** The executions some phase settles. */
  ghost function Reached(resolve: Resolver, selected: seq<Requirement>, log: RunLog): set<string>
  {
    Rejected(resolve, selected) + FailedLabels(log.setups, log.ran) + Team(log.jobs)
  }

  lemma SettledExactly(resolve: Resolver, sched: map<string, Override>, providers: Providers,
                       selected: seq<Requirement>, log: RunLog, name: string)
    requires IsLog(resolve, sched, providers, selected, log)
    ensures SettledIn(Events(log), name) <==> name in Reached(resolve, selected, log)
  {
    SettledConcat(log.partition, log.setup);
    SettledConcat(log.partition + log.setup, log.work);
    PartitionSettles(resolve, selected, log.partition, name);
  }

  lemma PartitionSettles(resolve: Resolver, selected: seq<Requirement>, es: seq<Event>, name: string)
    requires Partitioned(resolve, selected, es)
    ensures SettledIn(es, name) <==> name in Rejected(resolve, selected)
    ensures !StartsIn(es, name) && !Drops(es)
  {
    forall e | e in es ensures e.Ended? && e.name in Rejected(resolve, selected) {
      assert RejectionIn(resolve, selected, e);
    }
  }

  lemma StartedOnlyInJobs(resolve: Resolver, sched: map<string, Override>, providers: Providers,
                          selected: seq<Requirement>, log: RunLog, name: string)
    requires IsLog(resolve, sched, providers, selected, log) && StartsIn(Events(log), name)
    ensures name in Team(log.jobs)
  {
    PartitionSettles(resolve, selected, log.partition, name);
    var e :| e in Events(log) && e.Started? && e.name == name;
    assert e in log.partition || e in log.setup || e in log.work;
  }

  /** Where every execution stands when the jobs are over; none is left running. */
  lemma PhaseAtEnd(resolve: Resolver, sched: map<string, Override>, providers: Providers,
                   selected: seq<Requirement>, log: RunLog, first: Board, name: string)
    requires IsLog(resolve, sched, providers, selected, log) && PhaseOf(first, name) == Waiting
    ensures PhaseOf(Play(first, Events(log)), name)
         == if EndsIn(Events(log), name) then Done
            else if name in Reached(resolve, selected, log) then Cut
            else Waiting
    ensures name !in Reached(resolve, selected, log) ==> !EndsIn(Events(log), name)
  {
    HistoryDecides(first, Events(log), name);
    SettledExactly(resolve, sched, providers, selected, log, name);
    if StartsIn(Events(log), name) {
      StartedOnlyInJobs(resolve, sched, providers, selected, log, name);
    }
  }

  // ---- what reaches a job ---------------------------------------------------------------------

  lemma LeftExactly(resolve: Resolver, selected: seq<Requirement>, setups: seq<Scoped>, ran: seq<nat>,
                    left: seq<Requirement>, es: seq<Event>, tr: Requirement)
    requires SetupsDone(setups, Filter(Scorable(resolve), selected), ran, left, es)
    ensures tr in left <==> tr in selected && Scorable(resolve)(tr) && tr.id !in FailedIds(setups, ran)
  {
    FilterMembers(Scorable(resolve), selected, tr);
    FilterMembers(OtherIds(FailedIds(setups, ran)), Filter(Scorable(resolve), selected), tr);
  }

  /** A requirement reaches a job exactly when it is scorable and no failed setup's scope names its id. */
  lemma ReachesJob(resolve: Resolver, sched: map<string, Override>, providers: Providers,
                   selected: seq<Requirement>, log: RunLog, tr: Requirement)
    requires IsLog(resolve, sched, providers, selected, log)
    ensures (exists k: nat :: k < |log.jobs| && tr in log.jobs[k].trs)
       <==> tr in selected && Scorable(resolve)(tr) && tr.id !in FailedIds(log.setups, log.ran)
    ensures tr.id in FailedIds(log.setups, log.ran) <==> exists n: nat, other ::
              n < |log.setups| && SetUp(n, false) in log.setup && other in log.setups[n].trs && other.id == tr.id
    ensures Scorable(resolve)(tr) <==> !RejectedAs(resolve, tr, Skip) && !RejectedAs(resolve, tr, Error)
  {
    RejectionMeans(resolve, tr);
    forall n: nat | n < |log.setups| ensures SetUp(n, false) in log.setup <==> n !in log.ran {
      TriedNotOk(log.setups, log.ran, log.setup, n);
    }
    LeftExactly(resolve, selected, log.setups, log.ran, log.left, log.setup, tr);
    InSomeJob(resolve, sched, log.left, log.jobs, tr);
  }

  /** Setup bracketing, first half: no test starts unless every setup whose scope contains it succeeded. */
  lemma StartedOnlyAfterItsSetups(resolve: Resolver, sched: map<string, Override>, providers: Providers,
                                  selected: seq<Requirement>, log: RunLog, name: string)
    requires IsLog(resolve, sched, providers, selected, log) && StartsIn(Events(log), name)
    ensures exists tr :: tr in selected && Label(tr) == name && Scorable(resolve)(tr)
              && forall n: nat :: n < |log.setups| && tr in log.setups[n].trs ==> n in log.ran
  {
    StartedOnlyInJobs(resolve, sched, providers, selected, log, name);
    var k: nat, tr :| k < |log.jobs| && tr in log.jobs[k].trs && Label(tr) == name;
    ReachesJob(resolve, sched, providers, selected, log, tr);
    assert forall n: nat :: n < |log.setups| && tr in log.setups[n].trs && n !in log.ran
             ==> tr.id in FailedIds(log.setups, log.ran);
  }

  /** Setup bracketing, second half: over the whole run the successful setups, and only they, are torn
      down once each, in reverse, and nothing but teardowns happens after the jobs. */
  lemma TornDownExactly(resolve: Resolver, sched: map<string, Override>, providers: Providers,
                        selected: seq<Requirement>, log: RunLog, n: nat)
    requires IsLog(resolve, sched, providers, selected, log)
    ensures multiset(Events(log) + log.teardown)[TornDown(n)]
         == if n < |log.setups| && SetUp(n, true) in log.setup then 1 else 0
    ensures |log.teardown| == |log.ran|
    ensures forall i :: 0 <= i < |log.ran| ==> log.teardown[i] == TornDown(log.ran[|log.ran| - 1 - i])
  {
    TriedOk(log.setups, log.ran, log.setup, n);
    TeardownsComeLast(resolve, sched, providers, selected, log, n);
    TornOnce(log.ran, n);
    CountBehind(Events(log), log.teardown, TornDown(n));
  }

  lemma CountBehind(es: seq<Event>, more: seq<Event>, e: Event)
    requires e !in es
    ensures multiset(es + more)[e] == multiset(more)[e]
  {
    assert multiset(es + more) == multiset(es) + multiset(more);
  }

  lemma TeardownsComeLast(resolve: Resolver, sched: map<string, Override>, providers: Providers,
                          selected: seq<Requirement>, log: RunLog, n: nat)
    requires IsLog(resolve, sched, providers, selected, log)
    ensures TornDown(n) !in Events(log)
  {
    assert forall e :: e in Events(log) ==> e in log.partition || e in log.setup || e in log.work;
    assert forall e :: e in log.partition ==> RejectionIn(resolve, selected, e);
  }

  lemma TriedOk(setups: seq<Scoped>, ran: seq<nat>, es: seq<Event>, n: nat)
    requires TriedSetups(setups, ran, es)
    ensures n in ran <==> n < |setups| && SetUp(n, true) in es
  {
    FilterMembers(IsSetUp(), es, SetUp(n, true));
    if n < |setups| {
      assert Tries(|setups|, ran)[n] == SetUp(n, n in ran);
    }
  }

  lemma TriedNotOk(setups: seq<Scoped>, ran: seq<nat>, es: seq<Event>, n: nat)
    requires TriedSetups(setups, ran, es) && n < |setups|
    ensures SetUp(n, false) in es <==> n !in ran
  {
    FilterMembers(IsSetUp(), es, SetUp(n, false));
    assert Tries(|setups|, ran)[n] == SetUp(n, n in ran);
  }

  lemma {:induction false} TornOnce(ran: seq<nat>, n: nat)
    requires forall i, j :: 0 <= i < j < |ran| ==> ran[i] < ran[j]
    ensures multiset(TearDowns(ran))[TornDown(n)] == if n in ran then 1 else 0
  {
    if ran != [] {
      var last, init := ran[|ran| - 1], ran[..|ran| - 1];
      TornOnce(init, n);
      assert TearDowns(ran) == [TornDown(last)] + TearDowns(init);
      assert ran == init + [last];
      assert forall i :: 0 <= i < |init| ==> init[i] != last;
    }
  }

  // ---- executions nobody settles --------------------------------------------------------------

  /** Dropped with a failed setup because of its id alone: outside every failed scope, yet in no job. */
  ghost predicate Stranded(resolve: Resolver, selected: seq<Requirement>, log: RunLog, name: string)
  {
    && name !in FailedLabels(log.setups, log.ran)
    && forall tr :: tr in selected && Label(tr) == name ==>
         Scorable(resolve)(tr) && tr.id in FailedIds(log.setups, log.ran)
  }

  lemma StrandedExactly(resolve: Resolver, sched: map<string, Override>, providers: Providers,
                        selected: seq<Requirement>, log: RunLog, name: string)
    requires IsLog(resolve, sched, providers, selected, log) && name in Labels(selected)
    ensures Stranded(resolve, selected, log, name) <==> name !in Reached(resolve, selected, log)
  {
    if name in Team(log.jobs) {
      var k: nat, tr :| k < |log.jobs| && tr in log.jobs[k].trs && Label(tr) == name;
      ReachesJob(resolve, sched, providers, selected, log, tr);
    }
    forall tr | tr in selected && Label(tr) == name && name !in Reached(resolve, selected, log)
      ensures Scorable(resolve)(tr) && tr.id in FailedIds(log.setups, log.ran)
    {
      ReachesJob(resolve, sched, providers, selected, log, tr);
    }
  }

  /** Scorable requirements of one id lie in the same provided group scopes. */
  ghost predicate SameScopesPerId(resolve: Resolver, providers: Providers, selected: seq<Requirement>)
  {
    forall a, b :: a in selected && b in selected && a.id == b.id && Scorable(resolve)(a) && Scorable(resolve)(b)
      ==> Alike(resolve, providers, a, b)
  }

  lemma IdMeansLabel(resolve: Resolver, providers: Providers, selected: seq<Requirement>,
                     setups: seq<Scoped>, ran: seq<nat>, tr: Requirement)
    requires Arrangement(resolve, providers, Filter(Scorable(resolve), selected), setups)
    requires SameScopesPerId(resolve, providers, selected) && tr in selected && Scorable(resolve)(tr)
    requires tr.id in FailedIds(setups, ran)
    ensures Label(tr) in FailedLabels(setups, ran)
  {
    var scorable := Filter(Scorable(resolve), selected);
    var k: nat, other :| k < |setups| && k !in ran && other in setups[k].trs && other.id == tr.id;
    ScopeMembers(resolve, providers, scorable, setups, k, other);
    FilterMembers(Scorable(resolve), selected, other);
    FilterMembers(Scorable(resolve), selected, tr);
    AlikeShareScopes(resolve, providers, scorable, setups, k, tr, other);
  }

  /** Where one id means the same scopes, whatever fails strands nobody. */
  lemma NobodyStranded(resolve: Resolver, sched: map<string, Override>, providers: Providers,
                       selected: seq<Requirement>, log: RunLog, name: string)
    requires IsLog(resolve, sched, providers, selected, log) && name in Labels(selected)
    requires SameScopesPerId(resolve, providers, selected)
    ensures !Stranded(resolve, selected, log, name)
  {
    var tr :| tr in selected && Label(tr) == name;
    if Scorable(resolve)(tr) && tr.id in FailedIds(log.setups, log.ran) {
      IdMeansLabel(resolve, providers, selected, log.setups, log.ran, tr);
    }
  }

  lemma ReachedLabels(resolve: Resolver, sched: map<string, Override>, providers: Providers,
                      selected: seq<Requirement>, log: RunLog)
    requires IsLog(resolve, sched, providers, selected, log)
    ensures Reached(resolve, selected, log) <= Labels(selected)
  {
    var scorable := Filter(Scorable(resolve), selected);
    forall k: nat, tr | k < |log.setups| && tr in log.setups[k].trs ensures tr in selected {
      ScopeMembers(resolve, providers, scorable, log.setups, k, tr);
      FilterMembers(Scorable(resolve), selected, tr);
    }
    forall k: nat, tr | k < |log.jobs| && tr in log.jobs[k].trs ensures tr in selected {
      ReachesJob(resolve, sched, providers, selected, log, tr);
    }
  }

  // ---- what every execution is reported as ----------------------------------------------------

  /** What partitioning completes a requirement as that it does not let through. */
  ghost predicate RejectedAs(resolve: Resolver, tr: Requirement, o: Outcome)
  {
    if tr.automationTool == "" || tr.automationTool == "manual" || resolve(tr.automationTool, tr.id).None? then o == Skip
    else o == Error && exists p :: p in tr.required && p !in tr.params
  }

  /** A setup failed in whose scope a requirement of this name lies. */
  ghost predicate InFailedScope(log: RunLog, name: string)
  {
    exists k: nat, tr :: k < |log.setups| && k !in log.ran && tr in log.setups[k].trs && Label(tr) == name
  }

  /** The jobs completed `tr`'s execution with the outcome of its results, after starting it, or as an error a
      variant they could not start. */
  ghost predicate WorkedAs(log: RunLog, name: string, o: Outcome, n: nat, tr: Requirement)
  {
    && InJobs(log.jobs, tr) && Label(tr) == name
    && n < |log.work| == |log.graded| && log.work[n] == Ended(name, o) && Reckons(log.graded[n], tr, o)
    && (Started(name) in log.work[..n] || (tr.variant != "" && o == Error))
  }

  ghost predicate RejectedName(resolve: Resolver, selected: seq<Requirement>, name: string, o: Outcome)
  {
    exists tr :: tr in selected && Label(tr) == name && RejectedAs(resolve, tr, o)
  }

  ghost predicate CompletedAs(resolve: Resolver, selected: seq<Requirement>, log: RunLog, name: string, o: Outcome)
  {
    || RejectedName(resolve, selected, name, o)
    || (o == Error && InFailedScope(log, name))
    || exists n: nat, tr :: WorkedAs(log, name, o, n, tr)
  }

  /** The record of an execution at the end: whose it is, and where its outcome and reason come from. */
  ghost predicate Explained(resolve: Resolver, selected: seq<Requirement>, scenario: string, log: RunLog,
                            name: string, e: RunExecution)
  {
    && (exists tr :: tr in selected && Label(tr) == name && e.tr == tr.id && e.variant == tr.variant) && e.scenario == scenario
    && (e.state == Queued ==> e.outcome == OtherOutcome("") && e.reason == "")
    && (e.state == Aborted ==> e.outcome == Error && e.reason == "run ended before execution completed")
    && (e.state == Completed ==> CompletedAs(resolve, selected, log, name, e.outcome))
    && forall o :: RejectedName(resolve, selected, name, o) ==>
         e.state == Completed && RejectedName(resolve, selected, name, e.outcome)
  }

  lemma RejectionMeans(resolve: Resolver, tr: Requirement)
    ensures Scorable(resolve)(tr) ==> forall o :: !RejectedAs(resolve, tr, o)
    ensures !Scorable(resolve)(tr) ==> RejectedAs(resolve, tr, Rejection(resolve, tr).outcome)
  {
    assert Supplied(tr) <==> forall p :: p in tr.required ==> p in tr.params;
  }

  lemma PartitionRejects(resolve: Resolver, selected: seq<Requirement>, es: seq<Event>, e: Event)
    requires Partitioned(resolve, selected, es) && e in es
    ensures e.Ended? && RejectedName(resolve, selected, e.name, e.outcome)
  {
    assert RejectionIn(resolve, selected, e);
    var tr :| tr in selected && !Scorable(resolve)(tr) && e == Rejection(resolve, tr);
    RejectionMeans(resolve, tr);
  }

  /** The phase an event of the history belongs to. */
  lemma EventAt(log: RunLog, n: nat)
    requires n < |Events(log)|
    ensures var p, s := |log.partition|, |log.partition| + |log.setup|;
            Events(log)[n] == if n < p then log.partition[n] else if n < s then log.setup[n - p] else log.work[n - s]
  {
  }

  lemma FirstEndExplained(resolve: Resolver, selected: seq<Requirement>, log: RunLog, name: string, n: nat)
    requires Partitioned(resolve, selected, log.partition) && FailuresSettled(log.setups, log.ran, log.setup)
    requires Worked(log.jobs, {}, log.work, log.graded) && FirstEnd(Events(log), n, name)
    ensures CompletedAs(resolve, selected, log, name, Events(log)[n].outcome)
    ensures name in Rejected(resolve, selected) ==> RejectedName(resolve, selected, name, Events(log)[n].outcome)
  {
    if name in Rejected(resolve, selected) {
      RejectionIsFirst(resolve, selected, log, name, n);
    }
    EventAt(log, n);
    var p, s := |log.partition|, |log.partition| + |log.setup|;
    if n < p {
      PartitionRejects(resolve, selected, log.partition, log.partition[n]);
    } else if n < s {
      FailureExplained(log, n - p);
    } else {
      WorkExplained(log, name, n - s);
    }
  }

  lemma FailureExplained(log: RunLog, m: nat)
    requires FailuresSettled(log.setups, log.ran, log.setup) && m < |log.setup| && !log.setup[m].SetUp?
    ensures (log.setup[m].Ended? || log.setup[m].Dropped?) && log.setup[m].outcome == Error
    ensures InFailedScope(log, log.setup[m].name)
  {
    assert log.setup[m] in log.setup;
  }

  lemma RejectionIsFirst(resolve: Resolver, selected: seq<Requirement>, log: RunLog, name: string, n: nat)
    requires Partitioned(resolve, selected, log.partition) && FirstEnd(Events(log), n, name)
    requires name in Rejected(resolve, selected)
    ensures n < |log.partition|
  {
    var e :| e in log.partition && e.Ended? && e.name == name;
    var i :| 0 <= i < |log.partition| && log.partition[i] == e;
    assert Events(log)[i] == e;
  }

  lemma WorkExplained(log: RunLog, name: string, m: nat)
    requires Worked(log.jobs, {}, log.work, log.graded)
    requires m < |log.work| && log.work[m].Ended? && log.work[m].name == name
    ensures exists tr :: WorkedAs(log, name, log.work[m].outcome, m, tr)
  {
    assert EarnedAt(log.jobs, log.work, log.graded, m);
    var tr :| Earns(log.jobs, log.work[..m], log.work[m], log.graded[m], tr);
    OverallReckons(log.graded[m], tr);
    assert WorkedAs(log, name, log.work[m].outcome, m, tr);
  }

  lemma WorkDropIsError(log: RunLog, m: nat)
    requires Worked(log.jobs, {}, log.work, log.graded) && m < |log.work| && log.work[m].Dropped?
    ensures log.work[m].outcome == Error
  {
    assert EarnedAt(log.jobs, log.work, log.graded, m);
  }

  lemma DropsAreErrors(resolve: Resolver, selected: seq<Requirement>, log: RunLog, n: nat)
    requires Partitioned(resolve, selected, log.partition) && FailuresSettled(log.setups, log.ran, log.setup)
    requires Worked(log.jobs, {}, log.work, log.graded) && n < |Events(log)| && Events(log)[n].Dropped?
    ensures Events(log)[n].outcome == Error
  {
    EventAt(log, n);
    var p, s := |log.partition|, |log.partition| + |log.setup|;
    if n < p {
      PartitionRejects(resolve, selected, log.partition, log.partition[n]);
    } else if n < s {
      FailureExplained(log, n - p);
    } else {
      WorkDropIsError(log, n - s);
    }
  }

  /** The record the history leaves of a selected execution is explained. */
  lemma RecordExplained(resolve: Resolver, sched: map<string, Override>, providers: Providers,
                        selected: seq<Requirement>, scenario: string, log: RunLog, name: string)
    requires IsLog(resolve, sched, providers, selected, log) && name in Labels(selected)
    ensures var e := ExecutionOf(Play(Fresh(selected, scenario), Events(log)), name);
            e.state != InProgress ==> Explained(resolve, selected, scenario, log, name, e)
  {
    var first, es := Fresh(selected, scenario), Events(log);
    FreshIsQueued(selected, scenario, name);
    FreshIsNamed(selected, scenario, name);
    UnsettledRecord(first, es, name);
    if EndsIn(es, name) {
      var n := FirstEndExists(es, name);
      FirstCompletionDecides(first, es, name, n);
      FirstEndExplained(resolve, selected, log, name, n);
      forall o | RejectedName(resolve, selected, name, o) ensures name in Rejected(resolve, selected) {
        NameRejected(resolve, selected, name, o);
      }
    } else {
      NeverRejected(resolve, selected, log, name);
      if DropsIn(es, name) {
        var n := FirstDropExists(es, name);
        FirstAbortDecides(first, es, name, n);
        DropsAreErrors(resolve, selected, log, n);
      } else {
        UntouchedState(first, es, name);
      }
    }
  }

  lemma NameRejected(resolve: Resolver, selected: seq<Requirement>, name: string, o: Outcome)
    requires RejectedName(resolve, selected, name, o)
    ensures name in Rejected(resolve, selected)
  {
    var tr :| tr in selected && Label(tr) == name && RejectedAs(resolve, tr, o);
    RejectionMeans(resolve, tr);
  }

  lemma NeverRejected(resolve: Resolver, selected: seq<Requirement>, log: RunLog, name: string)
    requires Partitioned(resolve, selected, log.partition) && !EndsIn(Events(log), name)
    ensures forall o :: !RejectedName(resolve, selected, name, o)
  {
    assert forall e :: e in log.partition ==> e in Events(log);
    assert name !in Rejected(resolve, selected);
    forall tr | tr in selected && Label(tr) == name ensures forall o :: !RejectedAs(resolve, tr, o) {
      RejectionMeans(resolve, tr);
    }
  }

  // ---- the end of the run -----------------------------------------------------------------------

  predicate Terminal(state: ExecutionState)
  {
    state == Completed || state == Aborted
  }

  /** Executions still running when the run ends count as aborted. */
  function CloseOne(e: RunExecution): RunExecution
  {
    if e.state == InProgress then e.(state := Aborted, reason := CUT_SHORT) else e
  }

  method CloseExecutions(executions: map<string, RunExecution>)
    returns (closed: map<string, RunExecution>, allTerminal: bool)
    ensures closed.Keys == executions.Keys
    ensures forall name :: name in closed ==> closed[name] == CloseOne(executions[name])
    ensures forall name :: name in closed ==>
              closed[name] == if executions[name].state != InProgress then executions[name]
                              else executions[name].(state := Aborted, reason := "run ended before execution completed")
    ensures allTerminal <==> forall name :: name in closed ==> closed[name].state in {Completed, Aborted}
  {
    closed, allTerminal := executions, true;
    var rest := executions.Keys;
    while rest != {}
      invariant closed.Keys == executions.Keys && rest <= executions.Keys
      invariant forall name :: name in closed ==>
                  closed[name] == if name in rest then executions[name] else CloseOne(executions[name])
      invariant allTerminal <==> forall name :: name in closed && name !in rest ==> Terminal(closed[name].state)
      decreases rest
    {
      var name :| name in rest;
      if closed[name].state == InProgress {
        closed := closed[name := closed[name].(state := Aborted, reason := CUT_SHORT)];
      }
      if !Terminal(closed[name].state) {
        allTerminal := false;
      }
      rest := rest - {name};
    }
  }

  function Cancellation(cause: string): Incident
  {
    Incident("run-cancelled", "cancellation", "", cause, "error", true)
  }

  const INCOMPLETE := Incident("run-incomplete", "incomplete", "", LEFT_QUEUED, "error", true)

  /** What `Run` promises about its end: see `Run`. */
  ghost predicate Promised(resolve: Resolver, selected: seq<Requirement>, log: RunLog, cancelled: bool, end: RunEnd)
  {
    && end.executions.Keys == Labels(selected)
    && (forall name :: name in end.executions ==>
          (end.executions[name].state == Queued <==> Stranded(resolve, selected, log, name)))
    && (forall name :: name in end.executions ==>
          end.executions[name].state != InProgress && (end.executions[name].state == Aborted ==> cancelled))
    && (end.status == Complete <==> !cancelled && forall name :: name in end.executions ==>
          end.executions[name].state == Completed)
    && (end.status == Complete <==> end.incidents == [])
    && (end.status == Partial <==> |end.incidents| == 1 && end.incidents[0].blocksCertification)
  }

  /** The report lists what the history left of every execution. */
  ghost predicate Reported(selected: seq<Requirement>, scenario: string, log: RunLog, end: RunEnd)
  {
    var board := Play(Fresh(selected, scenario), Events(log));
    && end.executions.Keys == board.executions.Keys
    && forall name :: name in end.executions ==> end.executions[name] == CloseOne(board.executions[name])
  }

  /** Every execution in the report has an explained record. */
  ghost predicate AllExplained(resolve: Resolver, selected: seq<Requirement>, scenario: string, log: RunLog, end: RunEnd)
  {
    forall name :: name in end.executions ==> Explained(resolve, selected, scenario, log, name, end.executions[name])
  }

  /** Why the run is complete or not, with the incident that says so. */
  ghost predicate Concluded(end: RunEnd, cancelled: bool, cause: string)
  {
    if cancelled then
      && end.status == Partial && end.reason == cause
      && end.incidents == [Incident("run-cancelled", "cancellation", "", cause, "error", true)]
    else if exists name :: name in end.executions && end.executions[name].state == Queued then
      && end.status == Partial && end.reason == "run ended with queued executions"
      && end.incidents == [Incident("run-incomplete", "incomplete", "", "run ended with queued executions", "error", true)]
    else end.status == Complete && end.reason == "" && end.incidents == []
  }

  lemma EndConcluded(closed: map<string, RunExecution>, cancelled: bool, cause: string)
    requires forall name :: name in closed ==> closed[name].state != InProgress
    ensures Concluded(Conclusion(closed, cancelled, cause), cancelled, cause)
  {
    assert forall name :: name in closed ==> (Terminal(closed[name].state) <==> closed[name].state != Queued);
  }

  lemma EndExplained(resolve: Resolver, sched: map<string, Override>, providers: Providers,
                     selected: seq<Requirement>, scenario: string, log: RunLog, end: RunEnd)
    requires IsLog(resolve, sched, providers, selected, log)
    requires Reported(selected, scenario, log, end) && end.executions.Keys == Labels(selected)
    ensures AllExplained(resolve, selected, scenario, log, end)
  {
    forall name | name in end.executions
      ensures Explained(resolve, selected, scenario, log, name, end.executions[name])
    {
      ExecutionAtEnd(resolve, sched, providers, selected, scenario, log, name);
      RecordExplained(resolve, sched, providers, selected, scenario, log, name);
    }
  }

  lemma BoardAtEnd(resolve: Resolver, sched: map<string, Override>, providers: Providers,
                   selected: seq<Requirement>, scenario: string, log: RunLog)
    requires IsLog(resolve, sched, providers, selected, log)
    ensures var b := Play(Fresh(selected, scenario), Events(log)); Agree(b) && b.phases.Keys == Labels(selected)
  {
    var first := Fresh(selected, scenario);
    FreshAgrees(selected, scenario);
    FreshKeys(selected, scenario);
    AlwaysAgree(first, Events(log));
    ReachedLabels(resolve, sched, providers, selected, log);
    forall e | e in Events(log) && IsStep(e) ensures e.name in first.phases {
      if e.Started? {
        StartedOnlyInJobs(resolve, sched, providers, selected, log, e.name);
      } else {
        assert SettledIn(Events(log), e.name);
        SettledExactly(resolve, sched, providers, selected, log, e.name);
      }
    }
    KeysPlayed(first, Events(log));
  }

  lemma PhaseFacts(resolve: Resolver, sched: map<string, Override>, providers: Providers,
                   selected: seq<Requirement>, log: RunLog, first: Board, name: string)
    requires IsLog(resolve, sched, providers, selected, log) && name in Labels(selected)
    requires PhaseOf(first, name) == Waiting
    ensures var phase := PhaseOf(Play(first, Events(log)), name);
            && phase != Phase.Active
            && (phase == Waiting <==> Stranded(resolve, selected, log, name))
            && (phase == Cut ==> Drops(Events(log)))
  {
    PhaseAtEnd(resolve, sched, providers, selected, log, first, name);
    StrandedExactly(resolve, sched, providers, selected, log, name);
    SettledExactly(resolve, sched, providers, selected, log, name);
  }

  /** One execution at the end of the jobs, before leftovers are closed. */
  lemma ExecutionAtEnd(resolve: Resolver, sched: map<string, Override>, providers: Providers,
                       selected: seq<Requirement>, scenario: string, log: RunLog, name: string)
    requires IsLog(resolve, sched, providers, selected, log) && name in Labels(selected)
    ensures var b := Play(Fresh(selected, scenario), Events(log));
            && name in b.executions
            && b.executions[name].state != InProgress
            && (b.executions[name].state == Queued <==> Stranded(resolve, selected, log, name))
            && (b.executions[name].state == Aborted ==> Drops(Events(log)))
  {
    FreshIsQueued(selected, scenario, name);
    PhaseFacts(resolve, sched, providers, selected, log, Fresh(selected, scenario), name);
    BoardAtEnd(resolve, sched, providers, selected, scenario, log);
    AgreeAt(Play(Fresh(selected, scenario), Events(log)), name);
  }

  lemma AgreeAt(b: Board, name: string)
    requires Agree(b) && name in b.phases
    ensures name in b.executions && b.executions[name].state == StateFor(PhaseOf(b, name))
  {
  }

  /** One execution as the report lists it. */
  lemma ClosedAtEnd(resolve: Resolver, sched: map<string, Override>, providers: Providers,
                    selected: seq<Requirement>, scenario: string, log: RunLog, name: string)
    requires IsLog(resolve, sched, providers, selected, log) && name in Labels(selected)
    ensures name in Play(Fresh(selected, scenario), Events(log)).executions
    ensures var state := CloseOne(Play(Fresh(selected, scenario), Events(log)).executions[name]).state;
            && state != InProgress
            && (state == Queued <==> Stranded(resolve, selected, log, name))
            && (state == Aborted ==> Drops(Events(log)))
            && (SameScopesPerId(resolve, providers, selected) ==> Terminal(state))
  {
    ExecutionAtEnd(resolve, sched, providers, selected, scenario, log, name);
    if SameScopesPerId(resolve, providers, selected) {
      NobodyStranded(resolve, sched, providers, selected, log, name);
    }
  }

  function Conclusion(closed: map<string, RunExecution>, cancelled: bool, cause: string): RunEnd
  {
    if cancelled then RunEnd(Partial, cause, closed, [Cancellation(cause)])
    else if exists name :: name in closed && !Terminal(closed[name].state) then
      RunEnd(Partial, LEFT_QUEUED, closed, [INCOMPLETE])
    else RunEnd(Complete, "", closed, [])
  }

  /** The status says whether every execution completed, and an incident records when one did not. */
  lemma StatusFollows(closed: map<string, RunExecution>, cancelled: bool, cause: string)
    requires forall name :: name in closed ==>
               closed[name].state != InProgress && (closed[name].state == Aborted ==> cancelled)
    ensures var end := Conclusion(closed, cancelled, cause);
            && (end.status == Complete <==> !cancelled && forall name :: name in closed ==> closed[name].state == Completed)
            && (end.status == Complete <==> end.incidents == [])
            && (end.status == Partial <==> |end.incidents| == 1 && end.incidents[0].blocksCertification)
  {
  }

  lemma PromiseKept(resolve: Resolver, sched: map<string, Override>, providers: Providers,
                    selected: seq<Requirement>, scenario: string, log: RunLog, cancelled: bool,
                    closed: map<string, RunExecution>, cause: string)
    requires IsLog(resolve, sched, providers, selected, log) && (Drops(Events(log)) ==> cancelled)
    requires closed.Keys == Labels(selected)
    requires forall name :: name in closed ==>
               name in Play(Fresh(selected, scenario), Events(log)).executions &&
               closed[name] == CloseOne(Play(Fresh(selected, scenario), Events(log)).executions[name])
    ensures Promised(resolve, selected, log, cancelled, Conclusion(closed, cancelled, cause))
    ensures SameScopesPerId(resolve, providers, selected) ==> forall name :: name in closed ==> Terminal(closed[name].state)
  {
    forall name | name in closed
      ensures closed[name].state == Queued <==> Stranded(resolve, selected, log, name)
      ensures closed[name].state != InProgress && (closed[name].state == Aborted ==> cancelled)
      ensures SameScopesPerId(resolve, providers, selected) ==> Terminal(closed[name].state)
    {
      ClosedAtEnd(resolve, sched, providers, selected, scenario, log, name);
    }
    StatusFollows(closed, cancelled, cause);
    assert Conclusion(closed, cancelled, cause).executions == closed;
  }

  /** The final status: leftovers are closed, and an incident explains why the run is not complete. */
  method Settle(executions: map<string, RunExecution>, cancelled: bool, cause: string) returns (end: RunEnd)
    ensures end.executions.Keys == executions.Keys
    ensures forall name :: name in executions ==> end.executions[name] == CloseOne(executions[name])
    ensures end == Conclusion(end.executions, cancelled, cause)
  {
    var closed, allTerminal := CloseExecutions(executions);
    if cancelled {
      end := RunEnd(Partial, cause, closed, [Cancellation(cause)]);
    } else if !allTerminal {
      end := RunEnd(Partial, LEFT_QUEUED, closed, [INCOMPLETE]);
    } else {
      end := RunEnd(Complete, "", closed, []);
    }
  }

  /** Partition and shared setups: everything before the jobs. */
  method Prepare(resolve: Resolver, providers: Providers, selected: seq<Requirement>, tracker: Tracker)
    returns (ran: seq<nat>, left: seq<Requirement>, over: bool,
             ghost setups: seq<Scoped>, ghost partition: seq<Event>, ghost setup: seq<Event>)
    requires tracker.Valid() && tracker.events == []
    modifies tracker
    ensures tracker.Valid() && tracker.events == partition + setup
    ensures Partitioned(resolve, selected, partition)
    ensures Arrangement(resolve, providers, Filter(Scorable(resolve), selected), setups)
    ensures SetupsDone(setups, Filter(Scorable(resolve), selected), ran, left, setup)
    ensures Drops(partition + setup) ==> over
  {
    var scorable;
    scorable, partition := Partition(resolve, selected, tracker);
    assert [] + partition == partition;
    var active := ActiveSetups(resolve, providers, scorable);
    setups := active;
    over := *;
    ran, left, over, setup := TrySetups(active, scorable, over, tracker);
    PartitionNeverDrops(resolve, selected, partition);
    DropsConcat(partition, setup);
  }

  lemma PartitionNeverDrops(resolve: Resolver, selected: seq<Requirement>, es: seq<Event>)
    requires Partitioned(resolve, selected, es)
    ensures !Drops(es)
  {
    PartitionSettles(resolve, selected, es, "");
  }

  /** Everything up to the end of the jobs. */
  method Execute(resolve: Resolver, sched: map<string, Override>, providers: Providers,
                 selected: seq<Requirement>, scenario: string)
    returns (tracker: Tracker, ran: seq<nat>, over: bool, ghost log: RunLog)
    ensures fresh(tracker) && tracker.Valid()
    ensures tracker.first == Fresh(selected, scenario) && tracker.events == Events(log)
    ensures IsLog(resolve, sched, providers, selected, log) && log.ran == ran
    ensures Drops(Events(log)) ==> over
  {
    tracker := new Tracker(selected, scenario);
    var left;
    ghost var setups, partition, setup, work, graded;
    ran, left, over, setups, partition, setup := Prepare(resolve, providers, selected, tracker);
    var jobs := GroupByTool(resolve, left, sched);
    over, work, graded := RunJobs(jobs, over, tracker);
    DropsConcat(partition + setup, work);
    log := RunLog(setups, ran, left, jobs, partition, setup, work, graded, TearDowns(ran));
  }

  /**
   Every run: setups are bracketed as the log says, every selected execution ends terminal unless
   stranded, and the status is complete exactly when nothing was cancelled and every execution
   completed; otherwise it is partial, with one incident that blocks certification. Every record says
   which execution it is and has the outcome of what settled it: a rejection by its reason, an error for
   a failed setup or an abort, else that of the execution's own results.
   */
  method Run(resolve: Resolver, sched: map<string, Override>, providers: Providers,
             selected: seq<Requirement>, scenario: string, cause: string)
    returns (end: RunEnd, cancelled: bool, ghost log: RunLog, ghost history: seq<Event>)
    ensures history == Events(log) + log.teardown
    ensures IsLog(resolve, sched, providers, selected, log) && (Drops(Events(log)) ==> cancelled)
    ensures Promised(resolve, selected, log, cancelled, end)
    ensures AllExplained(resolve, selected, scenario, log, end) && Concluded(end, cancelled, cause)
    ensures Reported(selected, scenario, log, end) && end == Conclusion(end.executions, cancelled, cause)
    ensures SameScopesPerId(resolve, providers, selected) ==> forall name :: name in end.executions ==> Terminal(end.executions[name].state)
  {
    var tracker, ran, over;
    tracker, ran, over, log := Execute(resolve, sched, providers, selected, scenario);
    var interrupted: bool := *;
    cancelled := over || interrupted;
    assert tracker.executions == tracker.Contents().executions;
    end := Settle(tracker.executions, cancelled, cause);
    BoardAtEnd(resolve, sched, providers, selected, scenario, log);
    PromiseKept(resolve, sched, providers, selected, scenario, log, cancelled, end.executions, cause);
    EndExplained(resolve, sched, providers, selected, scenario, log, end);
    EndConcluded(end.executions, cancelled, cause);
    TearDownAll(ran, tracker);
    history := tracker.events;
  }
}
