/**
 Which executions can be left queued, decided from what `Run` is given: every choice of failing
 setups is some log's, so the condition names no outcome of any setup. Only which setups failed
 decides who is stranded, and any may fail, so logs that no run leaves add nobody.
 */
module Stranding {
  import opened Core
  import opened Filtering
  import opened Text
  import S = Sorting
  import opened Grouping
  import opened Setups
  import opened Progress
  import opened RunDriver
  import opened RunOutcome

  /** Some log without a cancellation leaves this execution queued. */
  ghost predicate CanStrand(resolve: Resolver, sched: map<string, Override>, providers: Providers,
                            selected: seq<Requirement>, name: string)
  {
    exists log :: IsLog(resolve, sched, providers, selected, log) && !Drops(Events(log))
                  && Stranded(resolve, selected, log, name)
  }

  /** A group that no requirement of this name lies in. */
  predicate Foreign(resolve: Resolver, selected: seq<Requirement>, name: string, key: string)
  {
    forall tr :: tr in selected && Label(tr) == name ==> key !in SetupGroups(resolve, tr)
  }

  /** A provided group outside which this name lies holds a scorable requirement of the same id. */
  ghost predicate DroppableWith(resolve: Resolver, providers: Providers, selected: seq<Requirement>,
                                name: string, id: string, other: Requirement, key: string)
  {
    && key in providers.group && Foreign(resolve, selected, name, key)
    && other in selected && other.id == id && Scorable(resolve)(other) && key in SetupGroups(resolve, other)
  }

  /** Every requirement of this name is scorable, and its id can be dropped without it. */
  ghost predicate Strandable(resolve: Resolver, providers: Providers, selected: seq<Requirement>, name: string)
  {
    forall tr :: tr in selected && Label(tr) == name ==>
      Scorable(resolve)(tr) && exists other, key :: DroppableWith(resolve, providers, selected, name, tr.id, other, key)
  }

  // ---- whoever is stranded was strandable -------------------------------------------------------

  lemma FailedScopeIsForeign(resolve: Resolver, providers: Providers, selected: seq<Requirement>,
                             setups: seq<Scoped>, ran: seq<nat>, name: string, tr: Requirement)
    requires Arrangement(resolve, providers, Filter(Scorable(resolve), selected), setups)
    requires name !in FailedLabels(setups, ran) && tr.id in FailedIds(setups, ran)
    requires forall x :: x in selected && Label(x) == name ==> Scorable(resolve)(x)
    requires tr in selected && Label(tr) == name
    ensures exists other, key :: DroppableWith(resolve, providers, selected, name, tr.id, other, key)
  {
    var scorable := Filter(Scorable(resolve), selected);
    var k: nat, other :| k < |setups| && k !in ran && other in setups[k].trs && other.id == tr.id;
    var key := ScopeOf(resolve, providers, scorable, setups, k);
    FilterMembers(Scorable(resolve), selected, tr);
    assert tr !in setups[k].trs;
    forall x | x in selected && Label(x) == name ensures key.value !in SetupGroups(resolve, x) {
      FilterMembers(Scorable(resolve), selected, x);
      InGroupMembers(resolve, key.value, scorable, x);
      assert x !in setups[k].trs;
    }
    FilterMembers(Scorable(resolve), selected, other);
    InGroupMembers(resolve, key.value, scorable, other);
    assert DroppableWith(resolve, providers, selected, name, tr.id, other, key.value);
  }

  lemma StrandedWasStrandable(resolve: Resolver, sched: map<string, Override>, providers: Providers,
                              selected: seq<Requirement>, log: RunLog, name: string)
    requires IsLog(resolve, sched, providers, selected, log) && Stranded(resolve, selected, log, name)
    ensures Strandable(resolve, providers, selected, name)
  {
    forall tr | tr in selected && Label(tr) == name
      ensures exists other, key :: DroppableWith(resolve, providers, selected, name, tr.id, other, key)
    {
      FailedScopeIsForeign(resolve, providers, selected, log.setups, log.ran, name, tr);
    }
  }

  // ---- every choice of failing setups is some log's ---------------------------------------------

  lemma {:induction false} SomePartition(resolve: Resolver, trs: seq<Requirement>) returns (es: seq<Event>)
    ensures Partitioned(resolve, trs, es)
  {
    es := [];
    if trs != [] {
      var init, last := trs[..|trs| - 1], trs[|trs| - 1];
      assert trs == init + [last];
      es := SomePartition(resolve, init);
      PartitionNext(resolve, init, es, last);
      es := if Scorable(resolve)(last) then es else es + [Rejection(resolve, last)];
    }
  }

  lemma {:induction false} SomeSettling(names: set<string>) returns (es: seq<Event>)
    ensures Settles(names, es) && !Drops(es)
  {
    es := [];
    if names != {} {
      var name :| name in names;
      es := SomeSettling(names - {name});
      SettlesNext(names - {name}, es, Ended(name, Error));
      DropsConcat(es, [Ended(name, Error)]);
      assert names - {name} + {name} == names;
      es := es + [Ended(name, Error)];
    }
  }

  /** Exactly the setups chosen fail. */
  lemma {:induction false} SomeSetups(setups: seq<Scoped>, scorable: seq<Requirement>, failing: set<nat>)
    returns (ran: seq<nat>, left: seq<Requirement>, es: seq<Event>)
    ensures SetupsDone(setups, scorable, ran, left, es) && !Drops(es)
    ensures forall k: nat :: k < |setups| ==> (k in ran <==> k !in failing)
  {
    if setups == [] {
      NoSetupsYet(scorable);
      ran, left, es := [], scorable, [];
    } else {
      var init, last := setups[..|setups| - 1], setups[|setups| - 1];
      assert setups == init + [last];
      ran, left, es := SomeSetups(init, scorable, failing);
      ran, left, es := OneMoreSetup(init, last, scorable, failing, ran, left, es);
    }
  }

  lemma OneMoreSetup(setups: seq<Scoped>, s: Scoped, scorable: seq<Requirement>, failing: set<nat>,
                     before: seq<nat>, had: seq<Requirement>, so: seq<Event>)
    returns (ran: seq<nat>, left: seq<Requirement>, es: seq<Event>)
    requires SetupsDone(setups, scorable, before, had, so) && !Drops(so)
    requires forall k: nat :: k < |setups| ==> (k in before <==> k !in failing)
    ensures SetupsDone(setups + [s], scorable, ran, left, es) && !Drops(es)
    ensures forall k: nat :: k <= |setups| ==> (k in ran <==> k !in failing)
  {
    var n := |setups|;
    if n in failing {
      var settled := SomeSettling(Labels(s.trs));
      SetupFailed(setups, s, scorable, before, had, so, settled);
      DropsConcat(so, [SetUp(n, false)] + settled);
      DropsConcat([SetUp(n, false)], settled);
      ran, left, es := before, Filter(OtherIds(Ids(s.trs)), had), so + ([SetUp(n, false)] + settled);
    } else {
      SetupRan(setups, s, scorable, before, had, so);
      DropsConcat(so, [SetUp(n, true)]);
      ran, left, es := before + [n], had, so + [SetUp(n, true)];
    }
  }

  ghost function JobOf(resolve: Resolver, sched: map<string, Override>, trs: seq<Requirement>, tool: string): Job
    requires S.StrictOrder(Less)
    requires Filter(Uses(tool), trs) != []
  {
    var members := Filter(Uses(tool), trs);
    var bound := Bound(resolve, members[0]);
    var groups := Configured(bound, sched, tool);
    Job(tool, members, ParallelSafe(bound, sched, tool), S.Listing(Less, set g | g in groups))
  }

  lemma SomeJobs(resolve: Resolver, sched: map<string, Override>, trs: seq<Requirement>) returns (jobs: seq<Job>)
    ensures Grouped(resolve, sched, trs, jobs)
  {
    LessIsStrict();
    var tools := Tools(trs);
    forall n | 0 <= n < |tools| ensures Filter(Uses(tools[n]), trs) != [] {
      assert tools[n] in tools;
      var tr :| tr in trs && tr.automationTool == tools[n];
      FilterMembers(Uses(tools[n]), trs, tr);
    }
    jobs := seq(|tools|, n requires 0 <= n < |tools| => JobOf(resolve, sched, trs, tools[n]));
    forall n | 0 <= n < |tools| ensures IsJobOf(resolve, sched, trs, tools[n], jobs[n]) {
      assert jobs[n] == JobOf(resolve, sched, trs, tools[n]);
    }
  }

  lemma {:induction false} SomeWork(jobs: seq<Job>, open: set<string>) returns (es: seq<Event>, graded: seq<seq<Verdict>>)
    requires open <= Team(jobs)
    ensures Worked(jobs, Team(jobs) - open, es, graded) && !Drops(es)
  {
    es, graded := [], [];
    if open != {} {
      var name :| name in open;
      es, graded := SomeWork(jobs, open - {name});
      es, graded := OneMoreExecution(jobs, Team(jobs) - (open - {name}), Team(jobs) - open, name, es, graded);
    }
  }

  /** An execution started and completed without results. */
  lemma OneMoreExecution(jobs: seq<Job>, open: set<string>, still: set<string>, name: string,
                         so: seq<Event>, before: seq<seq<Verdict>>)
    returns (es: seq<Event>, graded: seq<seq<Verdict>>)
    requires Worked(jobs, open, so, before) && !Drops(so) && name in Team(jobs)
    requires still <= open && open - still <= {name}
    ensures Worked(jobs, still, es, graded) && !Drops(es)
  {
    var k, tr :| 0 <= k < |jobs| && tr in jobs[k].trs && Label(tr) == name;
    var start, end := Started(name), Ended(name, Error);
    assert start in so + [start];
    assert Earns(jobs, so, start, [], tr) && Earns(jobs, so + [start], end, [], tr);
    assert forall x :: x in open && x !in still ==> x in open - still;
    WorkedNext(jobs, open, so, before, start, [], open);
    WorkedNext(jobs, open, so + [start], before + [[]], end, [], still);
    DropsConcat(so, [start]);
    DropsConcat(so + [start], [end]);
    es, graded := so + [start] + [end], before + [[]] + [[]];
  }

  lemma SomeArrangement(resolve: Resolver, providers: Providers, trs: seq<Requirement>)
    returns (run: seq<string>, groups: seq<string>, setups: seq<Scoped>)
    ensures Arranged(resolve, providers, trs, run, groups, setups)
  {
    LessIsStrict();
    run := S.Listing(Less, if trs == [] then {} else providers.run);
    groups := S.Listing(Less, Wanted(resolve, trs) * providers.group);
    setups := RunScopes(run, trs) + GroupScopes(resolve, groups, trs);
  }

  /** The setup at `k` is that of one of the groups named. */
  predicate Chosen(run: seq<string>, groups: seq<string>, keys: set<string>, k: nat)
  {
    |run| <= k < |run| + |groups| && groups[k - |run|] in keys
  }

  lemma LogFrom(resolve: Resolver, sched: map<string, Override>, providers: Providers, selected: seq<Requirement>,
                setups: seq<Scoped>, ran: seq<nat>, left: seq<Requirement>, setup: seq<Event>)
    returns (log: RunLog)
    requires Arrangement(resolve, providers, Filter(Scorable(resolve), selected), setups)
    requires SetupsDone(setups, Filter(Scorable(resolve), selected), ran, left, setup) && !Drops(setup)
    ensures IsLog(resolve, sched, providers, selected, log) && !Drops(Events(log))
    ensures log.setups == setups && log.ran == ran
  {
    var partition := SomePartition(resolve, selected);
    var jobs := SomeJobs(resolve, sched, left);
    var work, graded := SomeWork(jobs, Team(jobs));
    assert Team(jobs) - Team(jobs) == {};
    PartitionNeverDrops(resolve, selected, partition);
    DropsConcat(partition, setup);
    DropsConcat(partition + setup, work);
    log := RunLog(setups, ran, left, jobs, partition, setup, work, graded, TearDowns(ran));
  }

  /** Some log of `selected` in which exactly the setups of the groups named fail. */
  lemma SomeLog(resolve: Resolver, sched: map<string, Override>, providers: Providers,
                selected: seq<Requirement>, keys: set<string>)
    returns (run: seq<string>, groups: seq<string>, log: RunLog)
    ensures IsLog(resolve, sched, providers, selected, log) && !Drops(Events(log))
    ensures Arranged(resolve, providers, Filter(Scorable(resolve), selected), run, groups, log.setups)
    ensures forall k: nat :: k < |log.setups| ==> (k in log.ran <==> !Chosen(run, groups, keys, k))
  {
    var setups: seq<Scoped>;
    run, groups, setups := SomeArrangement(resolve, providers, Filter(Scorable(resolve), selected));
    var failing := set k: nat | k < |setups| && Chosen(run, groups, keys, k);
    var ran, left, setup := SomeSetups(setups, Filter(Scorable(resolve), selected), failing);
    log := LogFrom(resolve, sched, providers, selected, setups, ran, left, setup);
  }

  // ---- the exact condition ------------------------------------------------------------------------

  lemma StrandableIsStranded(resolve: Resolver, sched: map<string, Override>, providers: Providers,
                             selected: seq<Requirement>, name: string)
    requires Strandable(resolve, providers, selected, name)
    ensures CanStrand(resolve, sched, providers, selected, name)
  {
    var keys := set key | key in providers.group && Foreign(resolve, selected, name, key);
    var run, groups, log := SomeLog(resolve, sched, providers, selected, keys);
    OutsideForeignScopes(resolve, providers, selected, run, groups, log, name, keys);
    forall tr | tr in selected && Label(tr) == name ensures tr.id in FailedIds(log.setups, log.ran) {
      var other, key :| DroppableWith(resolve, providers, selected, name, tr.id, other, key);
      DroppedWith(resolve, providers, selected, run, groups, log, key, other, keys);
    }
  }

  lemma OutsideForeignScopes(resolve: Resolver, providers: Providers, selected: seq<Requirement>, run: seq<string>,
                             groups: seq<string>, log: RunLog, name: string, keys: set<string>)
    requires Arranged(resolve, providers, Filter(Scorable(resolve), selected), run, groups, log.setups)
    requires forall k: nat :: k < |log.setups| ==> (k in log.ran <==> !Chosen(run, groups, keys, k))
    requires forall key :: key in keys ==> Foreign(resolve, selected, name, key)
    ensures name !in FailedLabels(log.setups, log.ran)
  {
    var scorable := Filter(Scorable(resolve), selected);
    forall k: nat, tr | k < |log.setups| && k !in log.ran && tr in log.setups[k].trs ensures Label(tr) != name {
      ScopesLieBehind(resolve, scorable, run, groups, k);
      InGroupMembers(resolve, groups[k - |run|], scorable, tr);
      FilterMembers(Scorable(resolve), selected, tr);
    }
  }

  lemma ListedAt(resolve: Resolver, providers: Providers, trs: seq<Requirement>, run: seq<string>,
                 groups: seq<string>, setups: seq<Scoped>, key: string, other: Requirement)
    returns (n: nat)
    requires Arranged(resolve, providers, trs, run, groups, setups)
    requires key in providers.group && other in trs && key in SetupGroups(resolve, other)
    ensures |run| <= n < |run| + |groups| == |setups| && groups[n - |run|] == key && other in setups[n].trs
  {
    InGroupMembers(resolve, key, trs, other);
    assert key in Wanted(resolve, trs) * providers.group;
    assert key in groups;
    var m: nat :| m < |groups| && groups[m] == key;
    n := |run| + m;
    ScopesLieBehind(resolve, trs, run, groups, n);
  }

  lemma DroppedWith(resolve: Resolver, providers: Providers, selected: seq<Requirement>, run: seq<string>,
                    groups: seq<string>, log: RunLog, key: string, other: Requirement, keys: set<string>)
    requires Arranged(resolve, providers, Filter(Scorable(resolve), selected), run, groups, log.setups)
    requires forall k: nat :: k < |log.setups| ==> (k in log.ran <==> !Chosen(run, groups, keys, k))
    requires key in providers.group && key in keys
    requires other in selected && Scorable(resolve)(other) && key in SetupGroups(resolve, other)
    ensures other.id in FailedIds(log.setups, log.ran)
  {
    var scorable := Filter(Scorable(resolve), selected);
    FilterMembers(Scorable(resolve), selected, other);
    var n := ListedAt(resolve, providers, scorable, run, groups, log.setups, key, other);
    assert Chosen(run, groups, keys, n);
  }

  /** An execution can be left queued exactly when its name's requirements are all scorable and each shares
      its id with a scorable requirement of a provided group that none of them lies in. */
  lemma StrandableExactly(resolve: Resolver, sched: map<string, Override>, providers: Providers,
                          selected: seq<Requirement>, name: string)
    ensures CanStrand(resolve, sched, providers, selected, name) <==> Strandable(resolve, providers, selected, name)
  {
    forall log | IsLog(resolve, sched, providers, selected, log) && Stranded(resolve, selected, log, name)
      ensures Strandable(resolve, providers, selected, name)
    {
      StrandedWasStrandable(resolve, sched, providers, selected, log, name);
    }
    if Strandable(resolve, providers, selected, name) {
      StrandableIsStranded(resolve, sched, providers, selected, name);
    }
  }

  ghost predicate DistinctLabels(selected: seq<Requirement>)
  {
    forall a, b :: a in selected && b in selected && Label(a) == Label(b) ==> a == b
  }

  lemma InScopeIsScorable(resolve: Resolver, sched: map<string, Override>, providers: Providers,
                          selected: seq<Requirement>, log: RunLog, name: string)
    requires IsLog(resolve, sched, providers, selected, log) && InFailedScope(log, name)
    ensures exists x :: x in selected && Label(x) == name && Scorable(resolve)(x) && x.id in FailedIds(log.setups, log.ran)
  {
    var scorable := Filter(Scorable(resolve), selected);
    var k: nat, x :| k < |log.setups| && k !in log.ran && x in log.setups[k].trs && Label(x) == name;
    ScopeMembers(resolve, providers, scorable, log.setups, k, x);
    FilterMembers(Scorable(resolve), selected, x);
  }

  lemma InJobsIsScorable(resolve: Resolver, sched: map<string, Override>, providers: Providers,
                         selected: seq<Requirement>, log: RunLog, tr: Requirement)
    requires IsLog(resolve, sched, providers, selected, log) && InJobs(log.jobs, tr)
    ensures tr in selected && Scorable(resolve)(tr) && tr.id !in FailedIds(log.setups, log.ran)
  {
    var k: nat :| k < |log.jobs| && tr in log.jobs[k].trs;
    ReachesJob(resolve, sched, providers, selected, log, tr);
  }

  /** Where every execution has its own label only one explanation of a completed record is possible: a rejected
      execution and one in a failed setup's scope never ran, and one in a failed scope was not rejected. */
  lemma OneExplanation(resolve: Resolver, sched: map<string, Override>, providers: Providers,
                       selected: seq<Requirement>, log: RunLog, name: string, o: Outcome, n: nat, tr: Requirement)
    requires IsLog(resolve, sched, providers, selected, log) && DistinctLabels(selected)
    ensures !(RejectedName(resolve, selected, name, o) && InFailedScope(log, name))
    ensures InJobs(log.jobs, tr) && Label(tr) == name ==>
              !RejectedName(resolve, selected, name, o) && !InFailedScope(log, name)
    ensures WorkedAs(log, name, o, n, tr) ==> InJobs(log.jobs, tr) && Label(tr) == name
  {
    if InFailedScope(log, name) {
      InScopeIsScorable(resolve, sched, providers, selected, log, name);
    }
    if InJobs(log.jobs, tr) {
      InJobsIsScorable(resolve, sched, providers, selected, log, tr);
    }
    forall x | x in selected && Scorable(resolve)(x) ensures !RejectedAs(resolve, x, o) {
      RejectionMeans(resolve, x);
    }
  }

  /** Where every execution has its own label: no run can leave any of them queued exactly when scorable
      requirements of one id lie in the same provided group scopes. */
  lemma NobodyStrandableExactly(resolve: Resolver, sched: map<string, Override>, providers: Providers,
                                selected: seq<Requirement>)
    requires DistinctLabels(selected)
    ensures (forall name :: name in Labels(selected) ==> !CanStrand(resolve, sched, providers, selected, name))
       <==> SameScopesPerId(resolve, providers, selected)
  {
    if SameScopesPerId(resolve, providers, selected) {
      forall name, log | name in Labels(selected) && IsLog(resolve, sched, providers, selected, log)
        ensures !Stranded(resolve, selected, log, name)
      {
        NobodyStranded(resolve, sched, providers, selected, log, name);
      }
    } else {
      var a, b :| a in selected && b in selected && a.id == b.id && Scorable(resolve)(a) && Scorable(resolve)(b)
                  && !Alike(resolve, providers, a, b);
      var key :| key in providers.group && !(key in SetupGroups(resolve, a) <==> key in SetupGroups(resolve, b));
      var outside, inside := if key in SetupGroups(resolve, a) then b else a, if key in SetupGroups(resolve, a) then a else b;
      assert DroppableWith(resolve, providers, selected, Label(outside), outside.id, inside, key);
      StrandableExactly(resolve, sched, providers, selected, Label(outside));
      assert Label(outside) in Labels(selected);
    }
  }

  /** One tool per id is enough, since the tool and the id decide the groups. */
  lemma OneToolPerIdSuffices(resolve: Resolver, providers: Providers, selected: seq<Requirement>)
    requires forall a, b :: a in selected && b in selected && a.id == b.id ==> a.automationTool == b.automationTool
    ensures SameScopesPerId(resolve, providers, selected)
  {
  }

  /** Every tool resolves, but only `tool` names the setup group `g`. */
  function OnlyOneNames(tool: string, g: string): Resolver
  {
    (t: string, id: string) => Some(Integration(true, [], if t == tool then [g] else []))
  }

  /** Two executions of one id under different tools: the failed setup of one can leave the other queued. */
  lemma OneIdTwoToolsStrands(g: string, a: Requirement, b: Requirement)
    requires a.id == b.id && Label(a) != Label(b) && a.automationTool != b.automationTool
    requires {"", MANUAL} !! {a.automationTool, b.automationTool} && Supplied(a) && Supplied(b)
    ensures CanStrand(OnlyOneNames(a.automationTool, g), map[], Providers({}, {g}), [a, b], Label(b))
  {
    var resolve := OnlyOneNames(a.automationTool, g);
    assert a in [a, b] && b in [a, b];
    assert SetupGroups(resolve, a) == [g] && SetupGroups(resolve, b) == [];
    assert DroppableWith(resolve, Providers({}, {g}), [a, b], Label(b), b.id, a, g);
    StrandableExactly(resolve, map[], Providers({}, {g}), [a, b], Label(b));
  }
}
