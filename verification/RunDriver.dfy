/**
 `Run`: partition, shared setups, jobs, final status. What the environment decides is chosen
 arbitrarily: which setups succeed, when the context is cancelled, which goroutine moves next,
 whether a variant's directory can be made, and what verdicts a test yields.
 */
module RunDriver {
  import opened Core
  import opened Filtering
  import opened Grouping
  import opened Setups
  import opened Progress

  const LEFT_QUEUED := "run ended with queued executions"

  predicate Runnable(resolve: Resolver, tr: Requirement)
  {
    tr.automationTool != "" && tr.automationTool != MANUAL && resolve(tr.automationTool, tr.id).Some?
  }

  predicate Supplied(tr: Requirement)
  {
    tr.required <= tr.params.Keys
  }

  function Scorable(resolve: Resolver): Requirement -> bool
  {
    (tr: Requirement) => Runnable(resolve, tr) && Supplied(tr)
  }

  ghost predicate Drops(es: seq<Event>)
  {
    exists e :: e in es && e.Dropped?
  }

  // ---- partition ----------------------------------------------------------------------

  function Rejected(resolve: Resolver, trs: seq<Requirement>): set<string>
  {
    set tr | tr in trs && !Scorable(resolve)(tr) :: Label(tr)
  }

  function Rejection(resolve: Resolver, tr: Requirement): Event
  {
    Ended(Label(tr), if Runnable(resolve, tr) then Error else Skip)
  }

  ghost predicate RejectionIn(resolve: Resolver, trs: seq<Requirement>, e: Event)
  {
    exists tr :: tr in trs && !Scorable(resolve)(tr) && e == Rejection(resolve, tr)
  }

  /** Partitioning completes every rejected execution, as a skip or as an error, and touches no other. */
  ghost predicate Partitioned(resolve: Resolver, trs: seq<Requirement>, es: seq<Event>)
  {
    && (forall e :: e in es ==> RejectionIn(resolve, trs, e))
    && (forall name :: name in Rejected(resolve, trs) ==> EndsIn(es, name))
  }

  method Partition(resolve: Resolver, selected: seq<Requirement>, tracker: Tracker)
    returns (scorable: seq<Requirement>, ghost es: seq<Event>)
    requires tracker.Valid()
    modifies tracker
    ensures tracker.Valid() && tracker.events == old(tracker.events) + es
    ensures scorable == Filter(Scorable(resolve), selected)
    ensures Partitioned(resolve, selected, es)
  {
    scorable, es := [], [];
    for n := 0 to |selected|
      invariant tracker.Valid() && tracker.events == old(tracker.events) + es
      invariant scorable == Filter(Scorable(resolve), selected[..n])
      invariant Partitioned(resolve, selected[..n], es)
    {
      var tr := selected[n];
      assert selected[..n + 1] == selected[..n] + [tr];
      FilterSnoc(Scorable(resolve), selected[..n], tr);
      PartitionNext(resolve, selected[..n], es, tr);
      Regroup(old(tracker.events), es, [Rejection(resolve, tr)]);
      if !Runnable(resolve, tr) {
        tracker.Complete(tr, Skip);
        es := es + [Rejection(resolve, tr)];
      } else if !Supplied(tr) {
        tracker.Complete(tr, Error);
        es := es + [Rejection(resolve, tr)];
      } else {
        scorable := scorable + [tr];
      }
    }
    assert selected[..|selected|] == selected;
  }

  lemma PartitionNext(resolve: Resolver, trs: seq<Requirement>, es: seq<Event>, tr: Requirement)
    requires Partitioned(resolve, trs, es)
    ensures Partitioned(resolve, trs + [tr], if Scorable(resolve)(tr) then es else es + [Rejection(resolve, tr)])
  {
    var more := if Scorable(resolve)(tr) then es else es + [Rejection(resolve, tr)];
    assert tr in trs + [tr];
    forall e | e in more ensures RejectionIn(resolve, trs + [tr], e) {
      if e in es {
        var x :| x in trs && !Scorable(resolve)(x) && e == Rejection(resolve, x);
        assert x in trs + [tr];
      }
    }
    forall name | name in Rejected(resolve, trs + [tr]) ensures EndsIn(more, name) {
      if name in Rejected(resolve, trs) {
        var e :| e in es && e.Ended? && e.name == name;
        assert e in more;
      } else {
        assert more[|es|] in more;
      }
    }
  }

  // ---- shared setups --------------------------------------------------------------------

  ghost function FailedLabels(setups: seq<Scoped>, ran: seq<nat>): set<string>
  {
    set k, tr | 0 <= k < |setups| && k !in ran && tr in setups[k].trs :: Label(tr)
  }

  ghost function FailedIds(setups: seq<Scoped>, ran: seq<nat>): set<string>
  {
    set k, tr | 0 <= k < |setups| && k !in ran && tr in setups[k].trs :: tr.id
  }

  function IsSetUp(): Event -> bool
  {
    (e: Event) => e.SetUp?
  }

  /** Every setup is tried once, in order, with the outcome `ran` records. */
  ghost function Tries(n: nat, ran: seq<nat>): seq<Event>
  {
    seq(n, (k: nat) => SetUp(k, k in ran))
  }

  ghost predicate TriedSetups(setups: seq<Scoped>, ran: seq<nat>, es: seq<Event>)
  {
    && (forall i :: 0 <= i < |ran| ==> ran[i] < |setups|)
    && (forall i, j :: 0 <= i < j < |ran| ==> ran[i] < ran[j])
    && Filter(IsSetUp(), es) == Tries(|setups|, ran)
  }

  /** A failed setup settles every execution in its scope, and setups touch no other. */
  ghost predicate FailuresSettled(setups: seq<Scoped>, ran: seq<nat>, es: seq<Event>)
  {
    && (forall e :: e in es ==>
          e.SetUp? || ((e.Ended? || e.Dropped?) && e.name in FailedLabels(setups, ran) && e.outcome == Error))
    && (forall name :: name in FailedLabels(setups, ran) ==> SettledIn(es, name))
  }

  /** The setups so far: tried, failures settled, and the requirements left to run. */
  ghost predicate SetupsDone(setups: seq<Scoped>, scorable: seq<Requirement>, ran: seq<nat>,
                             left: seq<Requirement>, es: seq<Event>)
  {
    && TriedSetups(setups, ran, es)
    && FailuresSettled(setups, ran, es)
    && left == Filter(OtherIds(FailedIds(setups, ran)), scorable)
  }

  method TrySetups(setups: seq<Scoped>, scorable: seq<Requirement>, cancelled: bool, tracker: Tracker)
    returns (ran: seq<nat>, left: seq<Requirement>, over: bool, ghost es: seq<Event>)
    requires tracker.Valid()
    modifies tracker
    ensures tracker.Valid() && tracker.events == old(tracker.events) + es
    ensures SetupsDone(setups, scorable, ran, left, es)
    ensures cancelled || Drops(es) ==> over
  {
    ran, left, over, es := [], scorable, cancelled, [];
    ghost var start := tracker.events;
    NoSetupsYet(scorable);
    assert setups[..0] == [];
    for n := 0 to |setups|
      invariant tracker.Valid() && tracker.events == start + es
      invariant SetupsDone(setups[..n], scorable, ran, left, es)
      invariant cancelled || Drops(es) ==> over
    {
      assert setups[..n + 1] == setups[..n] + [setups[n]];
      ran, left, over, es := TrySetup(setups[..n], n, setups[n], scorable, ran, left, over, tracker, es, start);
    }
    assert setups[..|setups|] == setups;
  }

  lemma DropsConcat(es: seq<Event>, more: seq<Event>)
    ensures Drops(es + more) <==> Drops(es) || Drops(more)
  {
    assert forall e :: e in es + more <==> e in es || e in more;
  }

  method TrySetup(ghost earlier: seq<Scoped>, n: nat, s: Scoped, ghost scorable: seq<Requirement>, ran: seq<nat>,
                  before: seq<Requirement>, cancelled: bool, tracker: Tracker, ghost es: seq<Event>,
                  ghost start: seq<Event>)
    returns (done: seq<nat>, left: seq<Requirement>, over: bool, ghost all: seq<Event>)
    requires n == |earlier| && tracker.Valid() && SetupsDone(earlier, scorable, ran, before, es)
    requires tracker.events == start + es && (Drops(es) ==> cancelled)
    modifies tracker
    ensures tracker.Valid() && tracker.events == start + all
    ensures SetupsDone(earlier + [s], scorable, done, left, all)
    ensures cancelled || Drops(all) ==> over
  {
    var ok: bool := *;
    tracker.Note(SetUp(n, ok));
    Regroup(start, es, [SetUp(n, ok)]);
    if ok {
      done, left, over, all := ran + [n], before, cancelled, es + [SetUp(n, true)];
      DropsConcat(es, [SetUp(n, true)]);
      SetupRan(earlier, s, scorable, ran, before, es);
    } else {
      ghost var settled;
      over, settled := SettleScope(s.trs, cancelled, tracker);
      all := es + ([SetUp(n, false)] + settled);
      Regroup(es, [SetUp(n, false)], settled);
      Regroup(start, es + [SetUp(n, false)], settled);
      DropsConcat(es, [SetUp(n, false)]);
      DropsConcat(es + [SetUp(n, false)], settled);
      SetupFailed(earlier, s, scorable, ran, before, es, settled);
      left := WithoutTRs(before, s.trs);
      done := ran;
    }
  }

  lemma SetupFailed(setups: seq<Scoped>, s: Scoped, scorable: seq<Requirement>, ran: seq<nat>,
                    left: seq<Requirement>, es: seq<Event>, settled: seq<Event>)
    requires SetupsDone(setups, scorable, ran, left, es) && Settles(Labels(s.trs), settled)
    ensures SetupsDone(setups + [s], scorable, ran, Filter(OtherIds(Ids(s.trs)), left),
                       es + ([SetUp(|setups|, false)] + settled))
  {
    FailedNext(setups, s, ran, es, settled);
    DroppedNext(setups, s, ran, scorable);
  }

  lemma SetupRan(setups: seq<Scoped>, s: Scoped, scorable: seq<Requirement>, ran: seq<nat>,
                 left: seq<Requirement>, es: seq<Event>)
    requires SetupsDone(setups, scorable, ran, left, es)
    ensures SetupsDone(setups + [s], scorable, ran + [|setups|], left, es + [SetUp(|setups|, true)])
  {
    RanNext(setups, s, ran, es);
    FailedStay(setups, s, ran);
  }

  ghost predicate Settles(names: set<string>, es: seq<Event>)
  {
    && (forall e :: e in es ==> (e.Ended? || e.Dropped?) && e.name in names && e.outcome == Error)
    && (forall name :: name in names ==> SettledIn(es, name))
  }

  method SettleScope(trs: seq<Requirement>, cancelled: bool, tracker: Tracker)
    returns (over: bool, ghost es: seq<Event>)
    requires tracker.Valid()
    modifies tracker
    ensures tracker.Valid() && tracker.events == old(tracker.events) + es
    ensures Settles(Labels(trs), es)
    ensures cancelled || Drops(es) ==> over
  {
    over, es := cancelled, [];
    for n := 0 to |trs|
      invariant tracker.Valid() && tracker.events == old(tracker.events) + es
      invariant Settles(Labels(trs[..n]), es)
      invariant cancelled || Drops(es) ==> over
    {
      assert trs[..n + 1] == trs[..n] + [trs[n]];
      assert Labels(trs[..n + 1]) == Labels(trs[..n]) + {Label(trs[n])};
      ghost var e;
      over, e := SettleOne(trs[n], Error, over, tracker);
      SettlesNext(Labels(trs[..n]), es, e);
      Regroup(old(tracker.events), es, [e]);
      es := es + [e];
    }
    assert trs[..|trs|] == trs;
  }

  lemma SettlesNext(names: set<string>, es: seq<Event>, e: Event)
    requires Settles(names, es) && (e.Ended? || e.Dropped?) && e.outcome == Error
    ensures Settles(names + {e.name}, es + [e])
  {
    SettledSnoc(es, e);
  }

  /** The recurring tail: abort when the context has been cancelled, else complete. */
  method SettleOne(tr: Requirement, outcome: Outcome, cancelled: bool, tracker: Tracker)
    returns (over: bool, ghost e: Event)
    requires tracker.Valid()
    modifies tracker
    ensures tracker.Valid() && tracker.events == old(tracker.events) + [e]
    ensures e == if over then Dropped(Label(tr), Error) else Ended(Label(tr), outcome)
    ensures cancelled ==> over
  {
    var interrupted: bool := *;
    over := cancelled || interrupted;
    if over {
      tracker.Abort(tr, Error);
      e := Dropped(Label(tr), Error);
    } else {
      tracker.Complete(tr, outcome);
      e := Ended(Label(tr), outcome);
    }
  }

  lemma SettledSnoc(es: seq<Event>, e: Event)
    ensures forall name :: SettledIn(es + [e], name)
                      <==> SettledIn(es, name) || ((e.Ended? || e.Dropped?) && e.name == name)
  {
    assert forall x :: x in es + [e] <==> x in es || x == e;
  }

  lemma SettledConcat(es: seq<Event>, more: seq<Event>)
    ensures forall name :: SettledIn(es + more, name) <==> SettledIn(es, name) || SettledIn(more, name)
  {
    assert forall e :: e in es + more <==> e in es || e in more;
  }

  lemma NoSetupsYet(scorable: seq<Requirement>)
    ensures SetupsDone([], scorable, [], scorable, [])
  {
    FilterAll(OtherIds(FailedIds([], [])), scorable);
  }

  lemma FailedGrow(setups: seq<Scoped>, s: Scoped, ran: seq<nat>)
    requires forall i :: 0 <= i < |ran| ==> ran[i] < |setups|
    ensures FailedLabels(setups + [s], ran) == FailedLabels(setups, ran) + Labels(s.trs)
    ensures FailedIds(setups + [s], ran) == FailedIds(setups, ran) + Ids(s.trs)
  {
    var all := setups + [s];
    assert |setups| !in ran && all[|setups|] == s;
    assert forall k :: 0 <= k < |setups| ==> all[k] == setups[k];
  }

  lemma FailedStay(setups: seq<Scoped>, s: Scoped, ran: seq<nat>)
    requires forall i :: 0 <= i < |ran| ==> ran[i] < |setups|
    ensures FailedLabels(setups + [s], ran + [|setups|]) == FailedLabels(setups, ran)
    ensures FailedIds(setups + [s], ran + [|setups|]) == FailedIds(setups, ran)
  {
    var all, done := setups + [s], ran + [|setups|];
    assert done[|ran|] in done;
    assert forall k: nat :: k < |setups| ==> all[k] == setups[k] && (k in done <==> k in ran);
  }

  lemma DroppedNext(setups: seq<Scoped>, s: Scoped, ran: seq<nat>, scorable: seq<Requirement>)
    requires forall i :: 0 <= i < |ran| ==> ran[i] < |setups|
    ensures Filter(OtherIds(Ids(s.trs)), Filter(OtherIds(FailedIds(setups, ran)), scorable))
         == Filter(OtherIds(FailedIds(setups + [s], ran)), scorable)
  {
    FailedGrow(setups, s, ran);
    FilterTwice(OtherIds(FailedIds(setups + [s], ran)), OtherIds(FailedIds(setups, ran)), OtherIds(Ids(s.trs)), scorable);
  }

  lemma SetUpsIn(keep: Event -> bool, es: seq<Event>, e: Event, more: seq<Event>)
    requires keep(e) && forall x :: x in more ==> !keep(x)
    ensures Filter(keep, es + ([e] + more)) == Filter(keep, es) + [e]
  {
    FilterSnoc(keep, es, e);
    FilterConcat(keep, es + [e], more);
    FilterNone(keep, more);
    Regroup(es, [e], more);
  }

  lemma TriesGrow(n: nat, ran: seq<nat>, ok: bool)
    requires forall i :: 0 <= i < |ran| ==> ran[i] < n
    ensures Tries(n + 1, if ok then ran + [n] else ran) == Tries(n, ran) + [SetUp(n, ok)]
  {
    var done := if ok then ran + [n] else ran;
    assert ok ==> done[|ran|] in done;
    assert forall k: nat :: k < n ==> (k in done <==> k in ran);
    assert n in done <==> ok;
  }

  lemma TriesNext(setups: seq<Scoped>, s: Scoped, ran: seq<nat>, es: seq<Event>, ok: bool, more: seq<Event>)
    requires TriedSetups(setups, ran, es)
    requires forall e :: e in more ==> !e.SetUp?
    ensures TriedSetups(setups + [s], if ok then ran + [|setups|] else ran, es + ([SetUp(|setups|, ok)] + more))
  {
    SetUpsIn(IsSetUp(), es, SetUp(|setups|, ok), more);
    TriesGrow(|setups|, ran, ok);
  }

  lemma FailedNext(setups: seq<Scoped>, s: Scoped, ran: seq<nat>, es: seq<Event>, more: seq<Event>)
    requires TriedSetups(setups, ran, es) && FailuresSettled(setups, ran, es)
    requires Settles(Labels(s.trs), more)
    ensures TriedSetups(setups + [s], ran, es + ([SetUp(|setups|, false)] + more))
    ensures FailuresSettled(setups + [s], ran, es + ([SetUp(|setups|, false)] + more))
  {
    TriesNext(setups, s, ran, es, false, more);
    FailedGrow(setups, s, ran);
    SettledConcat(es, [SetUp(|setups|, false)] + more);
    SettledConcat([SetUp(|setups|, false)], more);
  }

  lemma RanNext(setups: seq<Scoped>, s: Scoped, ran: seq<nat>, es: seq<Event>)
    requires TriedSetups(setups, ran, es) && FailuresSettled(setups, ran, es)
    ensures TriedSetups(setups + [s], ran + [|setups|], es + [SetUp(|setups|, true)])
    ensures FailuresSettled(setups + [s], ran + [|setups|], es + [SetUp(|setups|, true)])
  {
    TriesNext(setups, s, ran, es, true, []);
    assert [SetUp(|setups|, true)] + [] == [SetUp(|setups|, true)];
    FailedStay(setups, s, ran);
    SettledSnoc(es, SetUp(|setups|, true));
  }

  /** Teardown in reverse order, each setup that succeeded exactly once. */
  ghost function TearDowns(ran: seq<nat>): seq<Event>
  {
    seq(|ran|, (i: nat) requires i < |ran| => TornDown(ran[|ran| - 1 - i]))
  }

  method TearDownAll(ran: seq<nat>, tracker: Tracker)
    requires tracker.Valid()
    modifies tracker`events
    ensures tracker.Valid() && tracker.events == old(tracker.events) + TearDowns(ran)
  {
    for i := |ran| downto 0
      invariant tracker.Valid() && tracker.events == old(tracker.events) + TearDowns(ran)[..|ran| - i]
    {
      tracker.Note(TornDown(ran[i]));
      assert TearDowns(ran)[..|ran| - i] == TearDowns(ran)[..|ran| - 1 - i] + [TornDown(ran[i])];
    }
    assert TearDowns(ran)[..|ran|] == TearDowns(ran);
  }

  // ---- jobs --------------------------------------------------------------------------------

  function Ordinary(): Requirement -> bool
  {
    (tr: Requirement) => tr.variant == ""
  }

  function OfVariant(): Requirement -> bool
  {
    (tr: Requirement) => tr.variant != ""
  }

  /** What one job executes, in order: the ordinary requirements first, then the variants. */
  method Worklist(trs: seq<Requirement>) returns (list: seq<Requirement>)
    ensures list == Filter(Ordinary(), trs) + Filter(OfVariant(), trs)
  {
    var ordinary: seq<Requirement> := [];
    for n := 0 to |trs|
      invariant ordinary == Filter(Ordinary(), trs[..n])
    {
      assert trs[..n + 1] == trs[..n] + [trs[n]];
      FilterSnoc(Ordinary(), trs[..n], trs[n]);
      if trs[n].variant == "" {
        ordinary := ordinary + [trs[n]];
      }
    }
    assert trs[..|trs|] == trs;
    var variants: seq<Requirement> := [];
    for n := 0 to |trs|
      invariant variants == Filter(OfVariant(), trs[..n])
    {
      assert trs[..n + 1] == trs[..n] + [trs[n]];
      FilterSnoc(OfVariant(), trs[..n], trs[n]);
      if trs[n].variant == "" {
        continue;
      }
      variants := variants + [trs[n]];
    }
    list := ordinary + variants;
  }

  lemma OrdinaryFirst(trs: seq<Requirement>)
    ensures var list := Filter(Ordinary(), trs) + Filter(OfVariant(), trs);
            forall i, j :: 0 <= i < j < |list| && list[j].variant == "" ==> list[i].variant == ""
  {
    var ordinary, variants := Filter(Ordinary(), trs), Filter(OfVariant(), trs);
    forall i | 0 <= i < |ordinary| ensures ordinary[i].variant == "" {
      FilterMembers(Ordinary(), trs, ordinary[i]);
    }
    forall i | 0 <= i < |variants| ensures variants[i].variant != "" {
      FilterMembers(OfVariant(), trs, variants[i]);
    }
  }

  /** The split executes every requirement of the job, as often as it was selected, and ordinary ones first. */
  lemma SplitLosesNothing(trs: seq<Requirement>)
    ensures multiset(Filter(Ordinary(), trs) + Filter(OfVariant(), trs)) == multiset(trs)
    ensures forall tr :: tr in Filter(Ordinary(), trs) + Filter(OfVariant(), trs) <==> tr in trs
    ensures var list := Filter(Ordinary(), trs) + Filter(OfVariant(), trs);
            forall i, j :: 0 <= i < j < |list| && list[j].variant == "" ==> list[i].variant == ""
  {
    OrdinaryFirst(trs);
    FilterSplits(Ordinary(), OfVariant(), trs);
    forall tr ensures tr in Filter(Ordinary(), trs) + Filter(OfVariant(), trs) <==> tr in trs {
      FilterMembers(Ordinary(), trs, tr);
      FilterMembers(OfVariant(), trs, tr);
    }
  }

  /** One goroutine: what it has still to execute and whether the first of it has been started. */
  datatype Worker = Worker(todo: seq<Requirement>, started: bool)

  function Effort(w: Worker): nat
  {
    if w.todo == [] then 0 else 2 * |w.todo| - if w.started then 1 else 0
  }

  function TotalEffort(ws: seq<Worker>): nat
  {
    if ws == [] then 0 else Effort(ws[0]) + TotalEffort(ws[1..])
  }

  lemma {:induction false} EffortFalls(ws: seq<Worker>, k: nat, w: Worker)
    requires k < |ws| && Effort(w) < Effort(ws[k])
    ensures TotalEffort(ws[k := w]) < TotalEffort(ws)
  {
    if k > 0 {
      assert ws[k := w][1..] == ws[1..][k - 1 := w];
      EffortFalls(ws[1..], k - 1, w);
    }
  }

  function Labelled(ws: seq<Worker>): set<string>
  {
    set w, tr | w in ws && tr in w.todo :: Label(tr)
  }

  ghost function Team(jobs: seq<Job>): set<string>
  {
    set k, tr | 0 <= k < |jobs| && tr in jobs[k].trs :: Label(tr)
  }

  /** An event of `tr`'s execution after `before`: an abort is an error, a completion has the outcome of the
      results, and only a variant, as an error, is settled without a start. */
  ghost predicate Earns(jobs: seq<Job>, before: seq<Event>, e: Event, results: seq<Verdict>, tr: Requirement)
  {
    && InJobs(jobs, tr) && IsStep(e) && e.name == Label(tr)
    && (e.Dropped? ==> e.outcome == Error)
    && (e.Ended? ==> e.outcome == Overall(results, tr))
    && (!e.Started? ==> StartsIn(before, e.name) || (tr.variant != "" && e.outcome == Error))
  }

  predicate InJobs(jobs: seq<Job>, tr: Requirement)
  {
    exists k :: 0 <= k < |jobs| && tr in jobs[k].trs
  }

  ghost predicate Earned(jobs: seq<Job>, before: seq<Event>, e: Event, results: seq<Verdict>)
  {
    exists tr :: Earns(jobs, before, e, results, tr)
  }

  ghost predicate EarnedAt(jobs: seq<Job>, es: seq<Event>, graded: seq<seq<Verdict>>, n: nat)
  {
    n < |es| == |graded| && Earned(jobs, es[..n], es[n], graded[n])
  }

  /** What the workers did so far for the jobs' executions, with the results of each step: everything no
      longer in `open`. */
  ghost predicate Worked(jobs: seq<Job>, open: set<string>, es: seq<Event>, graded: seq<seq<Verdict>>)
  {
    && open <= Team(jobs)
    && (forall e :: e in es ==> IsStep(e) && e.name in Team(jobs))
    && (forall name :: name in Team(jobs) && name !in open ==> SettledIn(es, name))
    && |graded| == |es| && forall n: nat :: n < |es| ==> EarnedAt(jobs, es, graded, n)
  }

  lemma WorkedNext(jobs: seq<Job>, open: set<string>, es: seq<Event>, graded: seq<seq<Verdict>>,
                   e: Event, results: seq<Verdict>, still: set<string>)
    requires Worked(jobs, open, es, graded) && Earned(jobs, es, e, results) && still <= open
    requires forall name :: name in open && name !in still ==> !e.Started? && e.name == name
    ensures Worked(jobs, still, es + [e], graded + [results])
  {
    SettledSnoc(es, e);
    var tr :| Earns(jobs, es, e, results, tr);
    assert e.name in Team(jobs);
    var all, said := es + [e], graded + [results];
    forall n: nat | n < |all| ensures EarnedAt(jobs, all, said, n) {
      assert all[..n] == es[..n];
      assert n < |es| ==> EarnedAt(jobs, es, graded, n);
    }
  }

  /** The workers have only requirements of the jobs to execute, and those they have started were started. */
  ghost predicate Crew(jobs: seq<Job>, ws: seq<Worker>, es: seq<Event>)
  {
    && (forall w, tr :: w in ws && tr in w.todo ==> InJobs(jobs, tr))
    && (forall w :: w in ws && w.started && w.todo != [] ==> StartsIn(es, Label(w.todo[0])))
  }

  lemma CrewMoves(jobs: seq<Job>, ws: seq<Worker>, es: seq<Event>, k: nat, results: seq<Verdict>, over: bool, e: Event)
    requires Crew(jobs, ws, es) && k < |ws| && ws[k].todo != [] && StepOf(ws[k], results, over, e)
    ensures Earned(jobs, es, e, results)
    ensures Crew(jobs, ws[k := Onward(ws[k], e)], es + [e])
  {
    var w, next, tr := ws[k], Onward(ws[k], e), ws[k].todo[0];
    assert w in ws && tr in w.todo;
    assert w.todo == [tr] + w.todo[1..];
    assert Earns(jobs, es, e, results, tr);
    assert e in es + [e];
    forall v | v in ws[k := next] ensures v == next || v in ws {
    }
    forall name | StartsIn(es, name) ensures StartsIn(es + [e], name) {
      var s :| s in es && s.Started? && s.name == name;
      assert s in es + [e];
    }
  }

  lemma WorkerMoves(ws: seq<Worker>, k: nat, w: Worker, tr: Requirement)
    requires k < |ws| && ws[k].todo != [] && tr == ws[k].todo[0]
    requires w.todo == ws[k].todo || w.todo == ws[k].todo[1..]
    ensures Labelled(ws[k := w]) <= Labelled(ws)
    ensures forall name :: name in Labelled(ws) && name !in Labelled(ws[k := w])
              ==> name == Label(tr) && w.todo == ws[k].todo[1..]
    ensures Label(tr) in Labelled(ws)
  {
    var moved := ws[k := w];
    assert ws[k].todo == [tr] + ws[k].todo[1..];
    forall v, t | v in moved && t in v.todo ensures Label(t) in Labelled(ws) {
      if v !in ws {
        assert v == w && t in ws[k].todo && ws[k] in ws;
      }
    }
    forall v, t | v in ws && t in v.todo && Label(t) !in Labelled(moved)
      ensures Label(t) == Label(tr) && w.todo == ws[k].todo[1..]
    {
      var j :| 0 <= j < |ws| && ws[j] == v;
      assert moved[j] in moved;
      assert moved[k] in moved;
    }
  }

  /** The event one step of a goroutine makes: a start, or a settlement with the outcome of the results. */
  ghost predicate StepOf(w: Worker, results: seq<Verdict>, over: bool, e: Event)
    requires w.todo != []
  {
    var tr := w.todo[0];
    || (e == Started(Label(tr)) && !w.started)
    || (e == Dropped(Label(tr), Error) && over && (w.started || tr.variant != ""))
    || (e == Ended(Label(tr), Overall(results, tr)) && !over && w.started)
    || (e == Ended(Label(tr), Error) && results == [] && !over && !w.started && tr.variant != "")
  }

  function Onward(w: Worker, e: Event): Worker
    requires w.todo != []
  {
    if e.Started? then Worker(w.todo, true) else Worker(w.todo[1..], false)
  }

  /** One step of a goroutine; the results of a test are arbitrary. */
  method WorkerStep(w: Worker, cancelled: bool, tracker: Tracker)
    returns (next: Worker, over: bool, ghost e: Event, ghost results: seq<Verdict>)
    requires tracker.Valid() && w.todo != []
    modifies tracker
    ensures tracker.Valid() && tracker.events == old(tracker.events) + [e]
    ensures StepOf(w, results, over, e)
    ensures next == Onward(w, e)
    ensures Effort(next) < Effort(w)
    ensures cancelled ==> over
  {
    var tr := w.todo[0];
    results := [];
    if w.started {
      var graded: seq<Verdict> := *;
      results := graded;
      var best := SummarizeTR(graded, tr);
      over, e := SettleOne(tr, best, cancelled, tracker);
      next := Worker(w.todo[1..], false);
    } else {
      var created: bool := *;
      if tr.variant != "" && !created {
        over, e := SettleOne(tr, Error, cancelled, tracker);
        next := Worker(w.todo[1..], false);
      } else {
        tracker.Start(tr);
        over, e := cancelled, Started(Label(tr));
        next := Worker(w.todo, true);
      }
    }
  }

  method Assign(jobs: seq<Job>) returns (ws: seq<Worker>)
    ensures Labelled(ws) == Team(jobs) && Crew(jobs, ws, [])
  {
    ws := [];
    for k := 0 to |jobs|
      invariant Labelled(ws) == Team(jobs[..k]) && Crew(jobs, ws, [])
    {
      var todo := Worklist(jobs[k].trs);
      SplitKeepsLabels(jobs[k].trs);
      LabelledSnoc(ws, Worker(todo, false));
      TeamSnoc(jobs[..k], jobs[k]);
      assert jobs[..k + 1] == jobs[..k] + [jobs[k]];
      SplitLosesNothing(jobs[k].trs);
      CrewSnoc(jobs, ws, k, Worker(todo, false));
      ws := ws + [Worker(todo, false)];
    }
    assert jobs[..|jobs|] == jobs;
  }

  lemma CrewSnoc(jobs: seq<Job>, ws: seq<Worker>, k: nat, w: Worker)
    requires Crew(jobs, ws, []) && k < |jobs| && !w.started
    requires forall tr :: tr in w.todo ==> tr in jobs[k].trs
    ensures Crew(jobs, ws + [w], [])
  {
    assert forall v :: v in ws + [w] <==> v in ws || v == w;
  }

  lemma SplitKeepsLabels(trs: seq<Requirement>)
    ensures Labels(Filter(Ordinary(), trs) + Filter(OfVariant(), trs)) == Labels(trs)
  {
    SplitLosesNothing(trs);
  }

  lemma LabelledSnoc(ws: seq<Worker>, w: Worker)
    ensures Labelled(ws + [w]) == Labelled(ws) + Labels(w.todo)
  {
    assert forall v :: v in ws + [w] <==> v in ws || v == w;
  }

  lemma TeamSnoc(jobs: seq<Job>, job: Job)
    ensures Team(jobs + [job]) == Team(jobs) + Labels(job.trs)
  {
    var all := jobs + [job];
    assert all[|jobs|] == job;
    assert forall k :: 0 <= k < |jobs| ==> all[k] == jobs[k];
  }

  /** All jobs to the end, interleaved step by step in any order. */
  method RunJobs(jobs: seq<Job>, cancelled: bool, tracker: Tracker)
    returns (over: bool, ghost es: seq<Event>, ghost graded: seq<seq<Verdict>>)
    requires tracker.Valid()
    modifies tracker
    ensures tracker.Valid() && tracker.events == old(tracker.events) + es
    ensures Worked(jobs, {}, es, graded)
    ensures cancelled || Drops(es) ==> over
  {
    over, es, graded := cancelled, [], [];
    var ws := Assign(jobs);
    while exists k :: 0 <= k < |ws| && ws[k].todo != []
      invariant tracker.Valid() && tracker.events == old(tracker.events) + es
      invariant Crew(jobs, ws, es) && Worked(jobs, Labelled(ws), es, graded)
      invariant cancelled || Drops(es) ==> over
      decreases TotalEffort(ws)
    {
      var k :| 0 <= k < |ws| && ws[k].todo != [];
      var next;
      ghost var e, results;
      next, over, e, results := WorkerStep(ws[k], over, tracker);
      EffortFalls(ws, k, next);
      TeamMoves(jobs, ws, es, graded, k, results, over, e);
      Regroup(old(tracker.events), es, [e]);
      DropsConcat(es, [e]);
      ws := ws[k := next];
      es, graded := es + [e], graded + [results];
    }
    assert Labelled(ws) == {};
  }

  lemma TeamMoves(jobs: seq<Job>, ws: seq<Worker>, es: seq<Event>, graded: seq<seq<Verdict>>, k: nat,
                  results: seq<Verdict>, over: bool, e: Event)
    requires Crew(jobs, ws, es) && Worked(jobs, Labelled(ws), es, graded)
    requires k < |ws| && ws[k].todo != [] && StepOf(ws[k], results, over, e)
    ensures var moved := ws[k := Onward(ws[k], e)];
            Crew(jobs, moved, es + [e]) && Worked(jobs, Labelled(moved), es + [e], graded + [results])
  {
    var next := Onward(ws[k], e);
    CrewMoves(jobs, ws, es, k, results, over, e);
    WorkerMoves(ws, k, next, ws[k].todo[0]);
    WorkedNext(jobs, Labelled(ws), es, graded, e, results, Labelled(ws[k := next]));
  }
}
