/**
 `groupByTool`: the selected requirements become one job per automation tool, and what it
 guarantees the scheduler. Tool lookup is a parameter: from a requirement's tool label and id,
 `resolve` gives the integration, if any.
 */
module Grouping {
  import opened Core
  import opened Filtering
  import opened Text
  import S = Sorting
  import Scheduler

  /** What the orchestrator reads of a registered tool. */
  datatype Integration = Integration(parallelSafe: bool, exclusivity: seq<string>, setupGroups: seq<string>)

  type Resolver = (string, string) -> Option<Integration>

  /** A plan's override for one tool; an absent field keeps the tool's default. */
  datatype Override = Override(parallelSafe: Option<bool>, exclusivity: Option<seq<string>>)

  datatype Job = Job(tool: string, trs: seq<Requirement>, parallelSafe: bool, groups: seq<string>)

  /** Go's zero value stands in for a tool that does not resolve. */
  function Bound(resolve: Resolver, tr: Requirement): Integration
  {
    match resolve(tr.automationTool, tr.id)
    case Some(integration) => integration
    case None => Integration(false, [], [])
  }

  function Uses(tool: string): Requirement -> bool
  {
    (tr: Requirement) => tr.automationTool == tool
  }

  /** The tools in the order of their first requirement. */
  function Tools(trs: seq<Requirement>): (tools: seq<string>)
    ensures forall tool :: tool in tools <==> exists tr :: tr in trs && tr.automationTool == tool
  {
    if trs == [] then []
    else
      var init, last := trs[..|trs| - 1], trs[|trs| - 1];
      assert trs == init + [last];
      if last.automationTool in Tools(init) then Tools(init) else Tools(init) + [last.automationTool]
  }

  function ParallelSafe(integration: Integration, sched: map<string, Override>, tool: string): bool
  {
    if tool in sched && sched[tool].parallelSafe.Some? then sched[tool].parallelSafe.value
    else integration.parallelSafe
  }

  function Configured(integration: Integration, sched: map<string, Override>, tool: string): seq<string>
  {
    if tool in sched && sched[tool].exclusivity.Some? then sched[tool].exclusivity.value
    else integration.exclusivity
  }

  lemma LessIsStrict()
    ensures S.StrictOrder(Less)
  {
    forall a: string ensures !Less(a, a) {
      LessIrreflexive(a);
    }
    forall a: string, b: string, c: string | Less(a, b) && Less(b, c) ensures Less(a, c) {
      LessTransitive(a, b, c);
    }
    forall a: string, b: string ensures a == b || Less(a, b) || Less(b, a) {
      LessTotal(a, b);
    }
  }

  /** How a job's first requirement and the plan settle its scheduling; groups sorted without repeats. */
  ghost predicate Settled(resolve: Resolver, sched: map<string, Override>, job: Job)
  {
    && job.trs != []
    && job.parallelSafe == ParallelSafe(Bound(resolve, job.trs[0]), sched, job.tool)
    && (forall g :: g in job.groups <==> g in Configured(Bound(resolve, job.trs[0]), sched, job.tool))
    && Scheduler.Increasing(job.groups)
  }

  /** The job of one tool: its requirements in order. */
  ghost predicate IsJobOf(resolve: Resolver, sched: map<string, Override>, trs: seq<Requirement>, tool: string, job: Job)
  {
    job.tool == tool && job.trs == Filter(Uses(tool), trs) && Settled(resolve, sched, job)
  }

  /** Exactly one job per tool, in first-appearance order. */
  ghost predicate Grouped(resolve: Resolver, sched: map<string, Override>, trs: seq<Requirement>, jobs: seq<Job>)
  {
    && |jobs| == |Tools(trs)|
    && forall n :: 0 <= n < |jobs| ==> IsJobOf(resolve, sched, trs, Tools(trs)[n], jobs[n])
  }

  method GroupByTool(resolve: Resolver, trs: seq<Requirement>, sched: map<string, Override>) returns (jobs: seq<Job>)
    ensures Grouped(resolve, sched, trs, jobs)
  {
    var byTool: map<string, seq<Requirement>>, order := CollectByTool(trs);
    forall n | 0 <= n < |order| ensures OfTool(trs, byTool, order[n]) {
      ItsRequirements(trs, byTool, order, n);
    }
    jobs := SettleJobs(resolve, sched, byTool, order, trs);
  }

  /** The loop over the tools found. */
  method SettleJobs(resolve: Resolver, sched: map<string, Override>, byTool: map<string, seq<Requirement>>,
                    order: seq<string>, ghost trs: seq<Requirement>)
    returns (jobs: seq<Job>)
    requires forall n :: 0 <= n < |order| ==> OfTool(trs, byTool, order[n])
    ensures |jobs| == |order| && forall n :: 0 <= n < |jobs| ==> IsJobOf(resolve, sched, trs, order[n], jobs[n])
  {
    jobs := [];
    for n := 0 to |order|
      invariant |jobs| == n
      invariant forall k :: 0 <= k < n ==> IsJobOf(resolve, sched, trs, order[k], jobs[k])
    {
      var job := SettleJob(resolve, sched, order[n], byTool[order[n]], trs);
      jobs := jobs + [job];
    }
  }

  ghost predicate OfTool(trs: seq<Requirement>, byTool: map<string, seq<Requirement>>, tool: string)
  {
    tool in byTool && byTool[tool] == Filter(Uses(tool), trs) && byTool[tool] != []
  }

  lemma ItsRequirements(trs: seq<Requirement>, byTool: map<string, seq<Requirement>>, order: seq<string>, n: nat)
    requires Collected(trs, byTool, order) && n < |order|
    ensures OfTool(trs, byTool, order[n])
  {
    assert order[n] in order;
    var tr :| tr in trs && tr.automationTool == order[n];
    FilterMembers(Uses(order[n]), trs, tr);
  }

  method SettleJob(resolve: Resolver, sched: map<string, Override>, tool: string, trs: seq<Requirement>,
                   ghost all: seq<Requirement>)
    returns (job: Job)
    requires trs != [] && trs == Filter(Uses(tool), all)
    ensures IsJobOf(resolve, sched, all, tool, job)
  {
    var integration := Bound(resolve, trs[0]);
    var safe := integration.parallelSafe;
    var groups := AsSet(integration.exclusivity);
    if tool in sched {
      var ov := sched[tool];
      if ov.parallelSafe.Some? {
        safe := ov.parallelSafe.value;
      }
      if ov.exclusivity.Some? {
        groups := AsSet(ov.exclusivity.value);
      }
    }
    var sorted := SortedNames(groups);
    job := Job(tool, trs, safe, sorted);
  }

  ghost predicate Collected(trs: seq<Requirement>, byTool: map<string, seq<Requirement>>, order: seq<string>)
  {
    && order == Tools(trs)
    && (forall tool :: tool in byTool <==> tool in order)
    && (forall tool :: tool in byTool ==> byTool[tool] == Filter(Uses(tool), trs))
  }

  method CollectByTool(trs: seq<Requirement>) returns (byTool: map<string, seq<Requirement>>, order: seq<string>)
    ensures Collected(trs, byTool, order)
    ensures forall tool :: tool in byTool ==> byTool[tool] != []
  {
    byTool, order := map[], [];
    for n := 0 to |trs|
      invariant Collected(trs[..n], byTool, order)
      invariant forall tool :: tool in byTool ==> byTool[tool] != []
    {
      var tr := trs[n];
      assert trs[..n + 1] == trs[..n] + [tr];
      if tr.automationTool !in byTool {
        CollectedNew(trs[..n], byTool, order, tr);
        order := order + [tr.automationTool];
        byTool := byTool[tr.automationTool := [tr]];
      } else {
        CollectedKnown(trs[..n], byTool, order, tr);
        byTool := byTool[tr.automationTool := byTool[tr.automationTool] + [tr]];
      }
    }
    assert trs[..|trs|] == trs;
  }

  lemma FilterUsesSnoc(trs: seq<Requirement>, tr: Requirement)
    ensures forall tool :: Filter(Uses(tool), trs + [tr])
                        == Filter(Uses(tool), trs) + if tool == tr.automationTool then [tr] else []
  {
    forall tool ensures Filter(Uses(tool), trs + [tr])
                     == Filter(Uses(tool), trs) + if tool == tr.automationTool then [tr] else []
    {
      FilterSnoc(Uses(tool), trs, tr);
    }
  }

  lemma CollectedNew(trs: seq<Requirement>, byTool: map<string, seq<Requirement>>, order: seq<string>, tr: Requirement)
    requires Collected(trs, byTool, order) && tr.automationTool !in byTool
    ensures Collected(trs + [tr], byTool[tr.automationTool := [tr]], order + [tr.automationTool])
  {
    assert (trs + [tr])[..|trs|] == trs;
    NoneOfNewTool(trs, tr.automationTool);
    FilterUsesSnoc(trs, tr);
  }

  lemma CollectedKnown(trs: seq<Requirement>, byTool: map<string, seq<Requirement>>, order: seq<string>, tr: Requirement)
    requires Collected(trs, byTool, order) && tr.automationTool in byTool
    ensures Collected(trs + [tr], byTool[tr.automationTool := byTool[tr.automationTool] + [tr]], order)
  {
    assert (trs + [tr])[..|trs|] == trs;
    FilterUsesSnoc(trs, tr);
  }

  lemma NoneOfNewTool(trs: seq<Requirement>, tool: string)
    ensures tool !in Tools(trs) ==> Filter(Uses(tool), trs) == []
  {
    if tool !in Tools(trs) && Filter(Uses(tool), trs) != [] {
      FilterMembers(Uses(tool), trs, Filter(Uses(tool), trs)[0]);
    }
  }

  /** `sort.Strings` on the keys of a Go map. */
  method SortedNames(names: set<string>) returns (xs: seq<string>)
    ensures S.Ascending(Less, names, xs)
  {
    LessIsStrict();
    xs := S.AscendingOrder(Less, names);
  }

  method AsSet(xs: seq<string>) returns (s: set<string>)
    ensures forall x :: x in s <==> x in xs
  {
    s := {};
    for n := 0 to |xs|
      invariant forall x :: x in s <==> x in xs[..n]
    {
      s := s + {xs[n]};
      assert xs[..n + 1] == xs[..n] + [xs[n]];
    }
    assert xs[..|xs|] == xs;
  }

  // ---- nothing is lost --------------------------------------------------------------

  /** All requirements of all jobs together. */
  function Members(jobs: seq<Job>): multiset<Requirement>
  {
    if jobs == [] then multiset{}
    else Members(jobs[..|jobs| - 1]) + multiset(jobs[|jobs| - 1].trs)
  }

  function OfTools(tools: seq<string>, trs: seq<Requirement>): multiset<Requirement>
  {
    if tools == [] then multiset{}
    else OfTools(tools[..|tools| - 1], trs) + multiset(Filter(Uses(tools[|tools| - 1]), trs))
  }

  lemma {:induction false} ToolsDistinct(trs: seq<Requirement>)
    ensures S.Distinct(Tools(trs))
  {
    if trs != [] {
      var init := Tools(trs[..|trs| - 1]);
      ToolsDistinct(trs[..|trs| - 1]);
      assert forall i :: 0 <= i < |init| ==> init[i] in init;
    }
  }

  lemma {:induction false} OneMore(tools: seq<string>, trs: seq<Requirement>, tr: Requirement)
    requires S.Distinct(tools)
    ensures OfTools(tools, trs + [tr])
         == OfTools(tools, trs) + if tr.automationTool in tools then multiset{tr} else multiset{}
  {
    if tools != [] {
      var init, last := tools[..|tools| - 1], tools[|tools| - 1];
      assert tools == init + [last];
      assert forall i :: 0 <= i < |init| ==> tools[i] != last;
      OneMore(init, trs, tr);
      FilterSnoc(Uses(last), trs, tr);
    }
  }

  lemma ToolsAfterOneMore(trs: seq<Requirement>, tr: Requirement)
    ensures OfTools(Tools(trs + [tr]), trs + [tr]) == OfTools(Tools(trs), trs) + multiset{tr}
  {
    var more, tool := trs + [tr], tr.automationTool;
    assert more[..|trs|] == trs;
    ToolsDistinct(trs);
    OneMore(Tools(trs), trs, tr);
    if tool !in Tools(trs) {
      assert Tools(more)[..|Tools(trs)|] == Tools(trs);
      NoneOfNewTool(trs, tool);
      FilterSnoc(Uses(tool), trs, tr);
      assert Filter(Uses(tool), more) == [tr];
    }
  }

  lemma {:induction false} ToolsCoverAll(trs: seq<Requirement>)
    ensures OfTools(Tools(trs), trs) == multiset(trs)
  {
    if trs != [] {
      var init, last := trs[..|trs| - 1], trs[|trs| - 1];
      assert trs == init + [last];
      ToolsCoverAll(init);
      ToolsAfterOneMore(init, last);
    }
  }

  lemma {:induction false} JobsHoldTheirTools(tools: seq<string>, trs: seq<Requirement>, jobs: seq<Job>)
    requires |jobs| == |tools|
    requires forall n :: 0 <= n < |jobs| ==> jobs[n].trs == Filter(Uses(tools[n]), trs)
    ensures Members(jobs) == OfTools(tools, trs)
  {
    if jobs != [] {
      JobsHoldTheirTools(tools[..|tools| - 1], trs, jobs[..|jobs| - 1]);
    }
  }

  /** Every requirement lands in exactly one job, as often as it was selected. */
  lemma GroupingLosesNothing(resolve: Resolver, sched: map<string, Override>, trs: seq<Requirement>, jobs: seq<Job>)
    requires Grouped(resolve, sched, trs, jobs)
    ensures Members(jobs) == multiset(trs)
  {
    JobsHoldTheirTools(Tools(trs), trs, jobs);
    ToolsCoverAll(trs);
  }

  /** A requirement is in a job's list exactly when it was given and names that job's tool. */
  lemma InItsJob(resolve: Resolver, sched: map<string, Override>, trs: seq<Requirement>, jobs: seq<Job>,
                 n: nat, tr: Requirement)
    requires Grouped(resolve, sched, trs, jobs) && n < |jobs|
    ensures tr in jobs[n].trs <==> tr in trs && tr.automationTool == Tools(trs)[n]
  {
    assert IsJobOf(resolve, sched, trs, Tools(trs)[n], jobs[n]);
    FilterMembers(Uses(Tools(trs)[n]), trs, tr);
  }

  lemma InSomeJob(resolve: Resolver, sched: map<string, Override>, trs: seq<Requirement>, jobs: seq<Job>,
                  tr: Requirement)
    requires Grouped(resolve, sched, trs, jobs)
    ensures tr in trs <==> exists n: nat :: n < |jobs| && tr in jobs[n].trs
  {
    forall n: nat | n < |jobs| ensures tr in jobs[n].trs ==> tr in trs {
      InItsJob(resolve, sched, trs, jobs, n, tr);
    }
    if tr in trs {
      assert tr.automationTool in Tools(trs);
      var n :| 0 <= n < |Tools(trs)| && Tools(trs)[n] == tr.automationTool;
      InItsJob(resolve, sched, trs, jobs, n, tr);
    }
  }

  /** No tool has two jobs, so all executions of a tool stay inside one job's locks. */
  lemma OneJobPerTool(resolve: Resolver, sched: map<string, Override>, trs: seq<Requirement>, jobs: seq<Job>,
                      m: nat, n: nat, a: Requirement, b: Requirement)
    requires Grouped(resolve, sched, trs, jobs) && m < |jobs| && n < |jobs|
    requires a in jobs[m].trs && b in jobs[n].trs
    ensures m == n <==> a.automationTool == b.automationTool
  {
    InItsJob(resolve, sched, trs, jobs, m, a);
    InItsJob(resolve, sched, trs, jobs, n, b);
    ToolsDistinct(trs);
  }

  // ---- what a job is made of --------------------------------------------------------

  /** A job has the requirements of its tool. The plan's override decides how it is scheduled, else what the tool
      its first requirement resolves to declares. */
  lemma JobsAsConfigured(resolve: Resolver, sched: map<string, Override>, trs: seq<Requirement>, jobs: seq<Job>, n: nat)
    requires Grouped(resolve, sched, trs, jobs) && n < |jobs|
    ensures var job := jobs[n];
            && job.trs != [] && forall tr :: tr in job.trs <==> tr in trs && tr.automationTool == job.tool
    ensures var job, bound := jobs[n], resolve(jobs[n].tool, jobs[n].trs[0].id);
            && job.parallelSafe == (if job.tool in sched && sched[job.tool].parallelSafe.Some? then
                                      sched[job.tool].parallelSafe.value
                                    else bound.Some? && bound.value.parallelSafe)
            && forall g :: g in job.groups <==>
                 if job.tool in sched && sched[job.tool].exclusivity.Some? then g in sched[job.tool].exclusivity.value
                 else bound.Some? && g in bound.value.exclusivity
  {
    var job := jobs[n];
    assert IsJobOf(resolve, sched, trs, Tools(trs)[n], job);
    forall tr ensures tr in job.trs <==> tr in trs && tr.automationTool == job.tool {
      FilterMembers(Uses(job.tool), trs, tr);
    }
    assert job.trs[0] in job.trs;
  }

  lemma {:induction false} ToolsInOrder(trs: seq<Requirement>, i: nat, j: nat) returns (p: nat)
    requires i < j < |Tools(trs)|
    ensures p < |trs| && trs[p].automationTool == Tools(trs)[i]
    ensures forall q :: 0 <= q <= p ==> trs[q].automationTool != Tools(trs)[j]
  {
    var init, last := trs[..|trs| - 1], trs[|trs| - 1];
    assert trs == init + [last];
    if j < |Tools(init)| {
      p := ToolsInOrder(init, i, j);
    } else {
      assert Tools(init)[i] in Tools(init) && last.automationTool !in Tools(init);
      var tr :| tr in init && tr.automationTool == Tools(init)[i];
      p :| 0 <= p < |init| && init[p] == tr;
      assert forall q :: 0 <= q < |init| ==> init[q] in init;
    }
  }

  /** Jobs come in the order of their first requirements: of two, the first has one before any of the second's. */
  lemma JobsInOrder(resolve: Resolver, sched: map<string, Override>, trs: seq<Requirement>, jobs: seq<Job>, i: nat, j: nat)
    returns (p: nat)
    requires Grouped(resolve, sched, trs, jobs) && i < j < |jobs|
    ensures p < |trs| && trs[p].automationTool == jobs[i].tool
    ensures forall q :: 0 <= q <= p ==> trs[q].automationTool != jobs[j].tool
  {
    assert IsJobOf(resolve, sched, trs, Tools(trs)[i], jobs[i]) && IsJobOf(resolve, sched, trs, Tools(trs)[j], jobs[j]);
    p := ToolsInOrder(trs, i, j);
  }

  // ---- what the scheduler gets ------------------------------------------------------

  function Locks(job: Job): Scheduler.Job
  {
    Scheduler.Job(job.parallelSafe, job.groups)
  }

  function AllLocks(jobs: seq<Job>): seq<Scheduler.Job>
  {
    seq(|jobs|, n requires 0 <= n < |jobs| => Locks(jobs[n]))
  }

  /** Scheduling the jobs of any selection: safe in every state, never stuck early, each job run once. */
  lemma GroupedJobsAreScheduled(resolve: Resolver, sched: map<string, Override>, trs: seq<Requirement>, jobs: seq<Job>,
                                concurrency: int, run: seq<Scheduler.State>, n: nat)
    requires Grouped(resolve, sched, trs, jobs)
    requires Scheduler.IsRun(AllLocks(jobs), Scheduler.Capacity(concurrency), run) && n < |run|
    ensures Scheduler.Safe(AllLocks(jobs), Scheduler.Capacity(concurrency), run[n])
    ensures |Scheduler.RunningJobs(run[n])| <= 1 || |Scheduler.RunningJobs(run[n])| <= concurrency
    ensures Scheduler.Stuck(AllLocks(jobs), Scheduler.Capacity(concurrency), run[n])
        <==> Scheduler.AllFinished(run[n])
    ensures Scheduler.AllFinished(run[n]) ==> multiset(run[n].log) == multiset(seq(|jobs|, i => i))
  {
    var locks := AllLocks(jobs);
    forall j | 0 <= j < |locks| ensures Scheduler.Increasing(locks[j].groups) {
      assert IsJobOf(resolve, sched, trs, Tools(trs)[j], jobs[j]);
    }
    Scheduler.AlwaysSafe(locks, concurrency, run, n);
    Scheduler.StuckOnlyWhenFinished(locks, concurrency, run, n);
    if Scheduler.AllFinished(run[n]) {
      Scheduler.EachJobRunsOnce(locks, concurrency, run, n);
    }
  }
}
