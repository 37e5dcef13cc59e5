/**
 `runJobs` under `schedule`: a goroutine executes its job's requirements while it is inside `run`, and
 `run` returns when none is left. Every such run is one of the interleavings `RunDriver.RunJobs` allows,
 and the executions of jobs that must not overlap stay apart.
 */
module ScheduledRun {
  import opened Core
  import opened Filtering
  import opened Grouping
  import opened Progress
  import opened RunDriver
  import Scheduler

  /** The locks, what every goroutine has still to execute, and the history with its results and authors. */
  datatype Moment = Moment(locks: Scheduler.State, ws: seq<Worker>, over: bool, es: seq<Event>,
                           graded: seq<seq<Verdict>>, authors: seq<nat>)

  function Assigned(job: Job): Worker
  {
    Worker(Filter(Ordinary(), job.trs) + Filter(OfVariant(), job.trs), false)
  }

  ghost function First(jobs: seq<Job>, cancelled: bool): Moment
  {
    Moment(Scheduler.Initial(AllLocks(jobs)), seq(|jobs|, k requires 0 <= k < |jobs| => Assigned(jobs[k])), cancelled, [], [], [])
  }

  predicate Fits(jobs: seq<Job>, m: Moment)
  {
    |m.locks.pc| == |m.ws| == |jobs|
  }

  /** `k` is inside `run` with something left to execute. */
  predicate CanWork(jobs: seq<Job>, m: Moment, k: nat)
    requires Fits(jobs, m)
  {
    k < |jobs| && Scheduler.InRun(m.locks.pc[k]) && m.ws[k].todo != []
  }

  /** The next lock operation of `i`, which from inside `run` is its return. */
  predicate CanLock(jobs: seq<Job>, cap: nat, m: Moment, i: nat)
    requires Fits(jobs, m)
  {
    Scheduler.CanStep(AllLocks(jobs), cap, m.locks, i) && !CanWork(jobs, m, i)
  }

  function Locked(jobs: seq<Job>, cap: nat, m: Moment, i: nat): Moment
    requires Fits(jobs, m) && CanLock(jobs, cap, m, i)
  {
    m.(locks := Scheduler.Step(AllLocks(jobs), cap, m.locks, i))
  }

  function Advanced(jobs: seq<Job>, m: Moment, k: nat, results: seq<Verdict>, over: bool, e: Event): Moment
    requires Fits(jobs, m) && CanWork(jobs, m, k)
  {
    m.(ws := m.ws[k := Onward(m.ws[k], e)], over := over, es := m.es + [e],
       graded := m.graded + [results], authors := m.authors + [k])
  }

  ghost predicate LockMove(jobs: seq<Job>, cap: nat, m: Moment, n: Moment)
    requires Fits(jobs, m)
  {
    exists i: nat :: CanLock(jobs, cap, m, i) && n == Locked(jobs, cap, m, i)
  }

  /** What goroutine `k` may do next: the step of `RunDriver.WorkerStep`, never un-cancelling. */
  ghost predicate MayDo(m: Moment, k: nat, results: seq<Verdict>, over: bool, e: Event)
    requires k < |m.ws| && m.ws[k].todo != []
  {
    StepOf(m.ws[k], results, over, e) && (m.over ==> over)
  }

  ghost predicate WorkMove(jobs: seq<Job>, m: Moment, n: Moment)
    requires Fits(jobs, m)
  {
    exists k: nat, results, over, e ::
      CanWork(jobs, m, k) && MayDo(m, k, results, over, e) && n == Advanced(jobs, m, k, results, over, e)
  }

  ghost predicate Moves(jobs: seq<Job>, cap: nat, m: Moment, n: Moment)
  {
    Fits(jobs, m) && (LockMove(jobs, cap, m, n) || WorkMove(jobs, m, n))
  }

  ghost predicate IsRun(jobs: seq<Job>, cap: nat, cancelled: bool, run: seq<Moment>)
  {
    && run != [] && run[0] == First(jobs, cancelled)
    && forall n :: 0 <= n < |run| - 1 ==> Moves(jobs, cap, run[n], run[n + 1])
  }

  // ---- the invariant ------------------------------------------------------------------------------

  /** Nothing is executed before `run` is entered, and nothing is left when it has returned. */
  ghost predicate WorkFollowsLocks(jobs: seq<Job>, m: Moment)
    requires Fits(jobs, m)
  {
    forall k: nat :: k < |jobs| ==>
      && (!Scheduler.HasRun(m.locks.pc[k]) ==> m.ws[k] == Assigned(jobs[k]) && k !in m.authors)
      && (Scheduler.HasRun(m.locks.pc[k]) && !Scheduler.InRun(m.locks.pc[k]) ==> m.ws[k].todo == [])
  }

  /** `schedule` keeps these two out of `run` at the same time. */
  predicate Conflict(jobs: seq<Job>, j: nat, k: nat)
  {
    && j < |jobs| && k < |jobs| && j != k
    && (!jobs[j].parallelSafe || !jobs[k].parallelSafe || exists g :: g in jobs[j].groups && g in jobs[k].groups)
  }

  predicate Left(pc: Scheduler.Pc)
  {
    Scheduler.HasRun(pc) && !Scheduler.InRun(pc)
  }

  /** When `later` executed something after `earlier` did and they conflict, `earlier` has left `run`. */
  ghost predicate LeftBefore(jobs: seq<Job>, m: Moment)
  {
    forall a, b :: 0 <= a < b < |m.authors| ==> Yielded(jobs, m.locks, m.authors[a], m.authors[b])
  }

  predicate Yielded(jobs: seq<Job>, locks: Scheduler.State, earlier: nat, later: nat)
  {
    Conflict(jobs, earlier, later) ==> earlier < |locks.pc| && Left(locks.pc[earlier])
  }

  /** No execution of a conflicting job lies between two of one job. */
  ghost predicate Apart(jobs: seq<Job>, authors: seq<nat>)
  {
    forall a, b, c :: 0 <= a < b < c < |authors| && authors[a] == authors[c]
      ==> !Conflict(jobs, authors[a], authors[b])
  }

  /** What was executed so far is what the goroutines no longer have to execute. */
  ghost predicate Accounted(jobs: seq<Job>, m: Moment)
  {
    Crew(jobs, m.ws, m.es) && Worked(jobs, Labelled(m.ws), m.es, m.graded) && (Drops(m.es) ==> m.over)
  }

  /** A goroutine executes only its own job's requirements, and every event is its author's. */
  ghost predicate Attributed(jobs: seq<Job>, m: Moment)
    requires Fits(jobs, m)
  {
    && (forall k, tr :: 0 <= k < |jobs| && tr in m.ws[k].todo ==> tr in jobs[k].trs)
    && |m.es| == |m.authors| && forall n :: 0 <= n < |m.es| ==> EventOf(jobs, m.authors[n], m.es[n])
  }

  ghost predicate EventOf(jobs: seq<Job>, k: nat, e: Event)
  {
    k < |jobs| && IsStep(e) && e.name in Labels(jobs[k].trs)
  }

  ghost predicate Inv(jobs: seq<Job>, cap: nat, m: Moment)
  {
    && Fits(jobs, m)
    && Scheduler.Inv(AllLocks(jobs), cap, m.locks)
    && WorkFollowsLocks(jobs, m) && Accounted(jobs, m) && Attributed(jobs, m)
    && LeftBefore(jobs, m) && Apart(jobs, m.authors)
  }

  // ---- it holds at first --------------------------------------------------------------------------

  lemma AssignedAll(jobs: seq<Job>)
    ensures Labelled(First(jobs, false).ws) == Team(jobs) && Crew(jobs, First(jobs, false).ws, [])
  {
    var ws := First(jobs, false).ws;
    forall k: nat, tr | k < |jobs| && tr in jobs[k].trs ensures Label(tr) in Labelled(ws) {
      SplitLosesNothing(jobs[k].trs);
      assert ws[k] in ws && tr in ws[k].todo;
    }
    forall w, tr | w in ws && tr in w.todo ensures Label(tr) in Team(jobs) && InJobs(jobs, tr) {
      var k :| 0 <= k < |ws| && ws[k] == w;
      SplitLosesNothing(jobs[k].trs);
      assert tr in jobs[k].trs;
    }
    assert forall w :: w in ws ==> !w.started;
  }

  lemma FirstInv(jobs: seq<Job>, cap: nat, cancelled: bool)
    ensures Inv(jobs, cap, First(jobs, cancelled))
  {
    Scheduler.InitialInv(AllLocks(jobs), cap);
    AssignedAll(jobs);
    forall k, tr | 0 <= k < |jobs| && tr in Assigned(jobs[k]).todo ensures tr in jobs[k].trs {
      SplitLosesNothing(jobs[k].trs);
    }
  }

  // ---- a lock operation keeps it --------------------------------------------------------------------

  /** How a lock operation of one goroutine shows in its own program counter or another's. */
  predicate Follows(before: Scheduler.Pc, after: Scheduler.Pc, own: bool)
  {
    && (Scheduler.HasRun(before) ==> Scheduler.HasRun(after))
    && (Left(before) ==> Left(after))
    && (Left(after) ==> Left(before) || (own && Scheduler.InRun(before)))
  }

  lemma StepEffect(locks: seq<Scheduler.Job>, cap: nat, s: Scheduler.State, i: nat, k: nat)
    requires |s.pc| == |locks| && Scheduler.CanStep(locks, cap, s, i) && k < |locks|
    ensures |Scheduler.Step(locks, cap, s, i).pc| == |locks|
    ensures Follows(s.pc[k], Scheduler.Step(locks, cap, s, i).pc[k], k == i)
  {
    var next := Scheduler.Step(locks, cap, s, i).pc[k];
    if k != i {
      assert next == s.pc[k] || (s.pc[k] == Scheduler.Parked && next == Scheduler.Locking(0));
    } else {
      OwnStepEffect(locks, cap, s, i);
    }
  }

  lemma OwnStepEffect(locks: seq<Scheduler.Job>, cap: nat, s: Scheduler.State, i: nat)
    requires |s.pc| == |locks| && Scheduler.CanStep(locks, cap, s, i)
    ensures Follows(s.pc[i], Scheduler.Step(locks, cap, s, i).pc[i], true)
  {
  }

  lemma LockFollowed(jobs: seq<Job>, cap: nat, m: Moment, i: nat)
    requires Fits(jobs, m) && WorkFollowsLocks(jobs, m) && CanLock(jobs, cap, m, i)
    ensures Fits(jobs, Locked(jobs, cap, m, i)) && WorkFollowsLocks(jobs, Locked(jobs, cap, m, i))
  {
    var n := Locked(jobs, cap, m, i);
    forall k: nat | k < |jobs|
      ensures !Scheduler.HasRun(n.locks.pc[k]) ==> m.ws[k] == Assigned(jobs[k]) && k !in m.authors
      ensures Left(n.locks.pc[k]) ==> m.ws[k].todo == []
    {
      StepEffect(AllLocks(jobs), cap, m.locks, i, k);
    }
  }

  lemma StillYielded(jobs: seq<Job>, cap: nat, m: Moment, i: nat)
    requires Fits(jobs, m) && LeftBefore(jobs, m) && CanLock(jobs, cap, m, i)
    ensures LeftBefore(jobs, Locked(jobs, cap, m, i))
  {
    var n := Locked(jobs, cap, m, i);
    forall a, b | 0 <= a < b < |m.authors| ensures Yielded(jobs, n.locks, m.authors[a], m.authors[b]) {
      assert Yielded(jobs, m.locks, m.authors[a], m.authors[b]);
      if m.authors[a] < |jobs| {
        StepEffect(AllLocks(jobs), cap, m.locks, i, m.authors[a]);
      }
    }
  }

  lemma LockKeepsInv(jobs: seq<Job>, cap: nat, m: Moment, i: nat)
    requires Inv(jobs, cap, m) && CanLock(jobs, cap, m, i)
    ensures Inv(jobs, cap, Locked(jobs, cap, m, i))
  {
    Scheduler.InvKept(AllLocks(jobs), cap, m.locks, i);
    LockFollowed(jobs, cap, m, i);
    StillYielded(jobs, cap, m, i);
  }

  // ---- an execution step keeps it -------------------------------------------------------------------

  lemma AccountedNext(jobs: seq<Job>, m: Moment, k: nat, results: seq<Verdict>, over: bool, e: Event)
    requires Fits(jobs, m) && Accounted(jobs, m) && CanWork(jobs, m, k) && MayDo(m, k, results, over, e)
    ensures Accounted(jobs, Advanced(jobs, m, k, results, over, e))
  {
    TeamMoves(jobs, m.ws, m.es, m.graded, k, results, over, e);
    DropsConcat(m.es, [e]);
  }

  lemma AttributedNext(jobs: seq<Job>, m: Moment, k: nat, results: seq<Verdict>, over: bool, e: Event)
    requires Fits(jobs, m) && Attributed(jobs, m) && CanWork(jobs, m, k) && MayDo(m, k, results, over, e)
    ensures Attributed(jobs, Advanced(jobs, m, k, results, over, e))
  {
    var n := Advanced(jobs, m, k, results, over, e);
    assert m.ws[k].todo[0] in m.ws[k].todo;
    assert m.ws[k].todo == [m.ws[k].todo[0]] + m.ws[k].todo[1..];
    assert EventOf(jobs, k, e);
    forall i | 0 <= i < |n.es| ensures EventOf(jobs, n.authors[i], n.es[i]) {
      assert i < |m.es| ==> EventOf(jobs, m.authors[i], m.es[i]);
    }
  }

  /** Two jobs inside `run` do not conflict. */
  lemma InsideTogether(jobs: seq<Job>, cap: nat, m: Moment, j: nat, k: nat)
    requires Fits(jobs, m) && Scheduler.Safe(AllLocks(jobs), cap, m.locks) && j < |jobs| && k < |jobs|
    requires Scheduler.InRun(m.locks.pc[j]) && Scheduler.InRun(m.locks.pc[k])
    ensures !Conflict(jobs, j, k)
  {
    var locks := AllLocks(jobs);
    assert locks[j] == Locks(jobs[j]) && locks[k] == Locks(jobs[k]);
    if j < k {
      assert locks[j].parallelSafe && locks[k].parallelSafe && forall g :: g in locks[j].groups ==> g !in locks[k].groups;
    } else if k < j {
      assert locks[j].parallelSafe && locks[k].parallelSafe && forall g :: g in locks[k].groups ==> g !in locks[j].groups;
    }
  }

  lemma WorkYields(jobs: seq<Job>, cap: nat, m: Moment, k: nat, a: nat)
    requires Inv(jobs, cap, m) && cap >= 1 && CanWork(jobs, m, k) && a < |m.authors|
    ensures Yielded(jobs, m.locks, m.authors[a], k)
  {
    var j := m.authors[a];
    assert j in m.authors;
    Scheduler.InvIsSafe(AllLocks(jobs), cap, m.locks);
    if j < |jobs| && Scheduler.InRun(m.locks.pc[j]) {
      InsideTogether(jobs, cap, m, j, k);
    }
  }

  lemma YieldedKept(jobs: seq<Job>, cap: nat, m: Moment, k: nat)
    requires Inv(jobs, cap, m) && cap >= 1 && CanWork(jobs, m, k)
    ensures LeftBefore(jobs, m.(authors := m.authors + [k]))
  {
    var all := m.authors + [k];
    forall a, b | 0 <= a < b < |all| ensures Yielded(jobs, m.locks, all[a], all[b]) {
      if b == |m.authors| {
        WorkYields(jobs, cap, m, k, a);
      } else {
        assert Yielded(jobs, m.locks, m.authors[a], m.authors[b]);
      }
    }
  }

  lemma ApartKept(jobs: seq<Job>, m: Moment, k: nat)
    requires Fits(jobs, m) && LeftBefore(jobs, m) && Apart(jobs, m.authors) && CanWork(jobs, m, k)
    ensures Apart(jobs, m.authors + [k])
  {
    var all := m.authors + [k];
    forall a, b, c | 0 <= a < b < c < |all| && all[a] == all[c] ensures !Conflict(jobs, all[a], all[b]) {
      assert all[a] == m.authors[a] && all[b] == m.authors[b];
      assert Yielded(jobs, m.locks, m.authors[a], m.authors[b]);
    }
  }

  lemma WorkKeepsInv(jobs: seq<Job>, cap: nat, m: Moment, k: nat, results: seq<Verdict>, over: bool, e: Event)
    requires Inv(jobs, cap, m) && cap >= 1 && CanWork(jobs, m, k) && MayDo(m, k, results, over, e)
    ensures Inv(jobs, cap, Advanced(jobs, m, k, results, over, e))
  {
    AccountedNext(jobs, m, k, results, over, e);
    AttributedNext(jobs, m, k, results, over, e);
    YieldedKept(jobs, cap, m, k);
    ApartKept(jobs, m, k);
  }

  // ---- every run ------------------------------------------------------------------------------------

  lemma MoveKeepsInv(jobs: seq<Job>, cap: nat, m: Moment, n: Moment)
    requires Inv(jobs, cap, m) && cap >= 1 && Moves(jobs, cap, m, n)
    ensures Inv(jobs, cap, n)
  {
    if LockMove(jobs, cap, m, n) {
      var i: nat :| CanLock(jobs, cap, m, i) && n == Locked(jobs, cap, m, i);
      LockKeepsInv(jobs, cap, m, i);
    } else {
      var k: nat, results, over, e :|
        CanWork(jobs, m, k) && MayDo(m, k, results, over, e) && n == Advanced(jobs, m, k, results, over, e);
      WorkKeepsInv(jobs, cap, m, k, results, over, e);
    }
  }

  lemma OneMoreMove(jobs: seq<Job>, cap: nat, run: seq<Moment>, n: nat)
    requires cap >= 1 && n + 1 < |run|
    requires forall m :: 0 <= m < |run| - 1 ==> Moves(jobs, cap, run[m], run[m + 1])
    requires forall m :: 0 <= m <= n ==> Inv(jobs, cap, run[m])
    ensures forall m :: 0 <= m <= n + 1 ==> Inv(jobs, cap, run[m])
  {
    MoveKeepsInv(jobs, cap, run[n], run[n + 1]);
  }

  lemma {:induction false} RunKeepsInv(jobs: seq<Job>, cap: nat, cancelled: bool, run: seq<Moment>, n: nat)
    requires IsRun(jobs, cap, cancelled, run) && cap >= 1 && n < |run|
    ensures forall m :: 0 <= m <= n ==> Inv(jobs, cap, run[m])
  {
    if n == 0 {
      FirstInv(jobs, cap, cancelled);
    } else {
      RunKeepsInv(jobs, cap, cancelled, run, n - 1);
      OneMoreMove(jobs, cap, run, n - 1);
    }
  }

  /** In every scheduled run the executions of jobs that conflict stay apart: between two executions of one job
      lies none of a job it must not run beside. */
  lemma ExecutionsStayApart(jobs: seq<Job>, concurrency: int, cancelled: bool, run: seq<Moment>, n: nat)
    requires IsRun(jobs, Scheduler.Capacity(concurrency), cancelled, run) && n < |run|
    ensures Fits(jobs, run[n]) && Attributed(jobs, run[n]) && Apart(jobs, run[n].authors)
  {
    RunKeepsInv(jobs, Scheduler.Capacity(concurrency), cancelled, run, n);
  }

  lemma SomeEvent(w: Worker, over: bool) returns (e: Event)
    requires w.todo != []
    ensures StepOf(w, [], over, e)
  {
    var tr := w.todo[0];
    e := if !w.started then Started(Label(tr)) else if over then Dropped(Label(tr), Error)
         else Ended(Label(tr), Overall([], tr));
  }

  lemma Progresses(jobs: seq<Job>, cap: nat, m: Moment)
    requires Inv(jobs, cap, m) && cap >= 1 && !Scheduler.AllFinished(m.locks)
    requires forall j :: 0 <= j < |jobs| ==> Scheduler.Increasing(jobs[j].groups)
    ensures exists n :: Moves(jobs, cap, m, n)
  {
    assert forall j :: 0 <= j < |jobs| ==> AllLocks(jobs)[j].groups == jobs[j].groups;
    Scheduler.InvProgress(AllLocks(jobs), cap, m.locks);
    var i: nat :| Scheduler.CanStep(AllLocks(jobs), cap, m.locks, i);
    if CanWork(jobs, m, i) {
      var e := SomeEvent(m.ws[i], m.over);
      assert MayDo(m, i, [], m.over, e);
      assert Moves(jobs, cap, m, Advanced(jobs, m, i, [], m.over, e));
    } else {
      assert Moves(jobs, cap, m, Locked(jobs, cap, m, i));
    }
  }

  /** A scheduled run is stuck exactly when every goroutine has finished. */
  lemma StuckOnlyWhenFinished(jobs: seq<Job>, concurrency: int, cancelled: bool, run: seq<Moment>, n: nat)
    requires IsRun(jobs, Scheduler.Capacity(concurrency), cancelled, run) && n < |run|
    requires forall j :: 0 <= j < |jobs| ==> Scheduler.Increasing(jobs[j].groups)
    ensures (forall next :: !Moves(jobs, Scheduler.Capacity(concurrency), run[n], next))
       <==> Scheduler.AllFinished(run[n].locks)
  {
    RunKeepsInv(jobs, Scheduler.Capacity(concurrency), cancelled, run, n);
    if !Scheduler.AllFinished(run[n].locks) {
      Progresses(jobs, Scheduler.Capacity(concurrency), run[n]);
    }
  }

  /** And then its executions are one of the interleavings `RunDriver.RunJobs` promises its results for. */
  lemma FinishedRunsAreWorked(jobs: seq<Job>, concurrency: int, cancelled: bool, run: seq<Moment>, n: nat)
    requires IsRun(jobs, Scheduler.Capacity(concurrency), cancelled, run) && n < |run|
    requires Scheduler.AllFinished(run[n].locks)
    ensures Worked(jobs, {}, run[n].es, run[n].graded) && (Drops(run[n].es) ==> run[n].over)
  {
    RunKeepsInv(jobs, Scheduler.Capacity(concurrency), cancelled, run, n);
    assert Inv(jobs, Scheduler.Capacity(concurrency), run[n]);
    NothingLeft(jobs, run[n]);
  }

  lemma NothingLeft(jobs: seq<Job>, m: Moment)
    requires Fits(jobs, m) && WorkFollowsLocks(jobs, m) && Scheduler.AllFinished(m.locks)
    ensures Labelled(m.ws) == {}
  {
    forall w | w in m.ws ensures w.todo == [] {
      var k :| 0 <= k < |m.ws| && m.ws[k] == w;
    }
  }

  function Ahead(jobs: seq<Job>, m: Moment): nat
    requires Fits(jobs, m)
  {
    Scheduler.TotalLeft(AllLocks(jobs), m.locks.pc) + TotalEffort(m.ws)
  }

  lemma MoveFalls(jobs: seq<Job>, cap: nat, m: Moment, n: Moment)
    requires Inv(jobs, cap, m) && Moves(jobs, cap, m, n)
    ensures Fits(jobs, n) && Ahead(jobs, n) < Ahead(jobs, m)
  {
    if LockMove(jobs, cap, m, n) {
      var i: nat :| CanLock(jobs, cap, m, i) && n == Locked(jobs, cap, m, i);
      Scheduler.StepFalls(AllLocks(jobs), cap, m.locks, i);
    } else {
      var k: nat, results, over, e :|
        CanWork(jobs, m, k) && MayDo(m, k, results, over, e) && n == Advanced(jobs, m, k, results, over, e);
      EffortFalls(m.ws, k, Onward(m.ws[k], e));
    }
  }

  /** Every scheduled run is finite. */
  lemma {:induction false} RunsAreBounded(jobs: seq<Job>, cap: nat, cancelled: bool, run: seq<Moment>, n: nat)
    requires IsRun(jobs, cap, cancelled, run) && cap >= 1 && n < |run|
    ensures Fits(jobs, run[n]) && n + Ahead(jobs, run[n]) <= Ahead(jobs, First(jobs, cancelled))
  {
    if n > 0 {
      RunsAreBounded(jobs, cap, cancelled, run, n - 1);
      RunKeepsInv(jobs, cap, cancelled, run, n - 1);
      assert Moves(jobs, cap, run[n - 1], run[n - 1 + 1]);
      MoveFalls(jobs, cap, run[n - 1], run[n]);
    }
  }
}
