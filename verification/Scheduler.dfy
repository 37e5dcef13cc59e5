/**
 `schedule`: one goroutine per job over a counting semaphore, a reader/writer lock and a mutex per
 exclusivity group. Each goroutine is a program counter; a step is one lock operation, the start of
 `run` or its return. A group mutex nobody holds is simply absent from `owner`, created or not.
 */
module Scheduler {
  import opened Core
  import opened Text

  /** What `schedule` reads of a job. */
  datatype Job = Job(parallelSafe: bool, groups: seq<string>)

  datatype Pc =
    | Fresh                // holds nothing yet
    | Pending              // exclusive: announced as writer, waits for active readers to drain
    | RunningAlone         // exclusive: inside run
    | Slotted              // parallel: holds a semaphore slot
    | Parked               // parallel: inside RLock, behind a pending or active writer
    | Locking(held: nat)   // parallel: read lock and the first `held` groups
    | Working              // parallel: inside run, holds all its groups
    | Unlocking(held: nat) // parallel: run returned, still holds the first `held` groups
    | Leaving              // parallel: read lock released, still holds the slot
    | Finished

  datatype State = State(
    pc: seq<Pc>,             // per goroutine
    slots: set<nat>,         // who occupies the semaphore channel
    writer: Option<nat>,     // who announced itself as writer
    readers: set<nat>,       // active readers
    owner: map<string, nat>, // who holds each locked group mutex
    log: seq<nat>)           // which jobs entered run, in order

  function Capacity(concurrency: int): nat
  {
    if concurrency < 1 then 1 else concurrency
  }

  function Initial(jobs: seq<Job>): State
  {
    State(seq(|jobs|, _ => Fresh), {}, None, {}, map[], [])
  }

  /** Whether goroutine `i` can take its next step. */
  predicate CanStep(jobs: seq<Job>, cap: nat, s: State, i: nat)
    requires |s.pc| == |jobs|
  {
    i < |jobs| &&
    match s.pc[i]
    case Fresh => if jobs[i].parallelSafe then |s.slots| < cap else s.writer == None
    case Pending => s.readers == {}
    case Locking(held) => held >= |jobs[i].groups| || jobs[i].groups[held] !in s.owner
    case Parked => false // woken by the writer's Unlock, not by a step of its own
    case Finished => false
    case _ => true
  }

  function ParkedJobs(s: State): set<nat>
  {
    set i | 0 <= i < |s.pc| && s.pc[i] == Parked
  }

  /** A writer's Unlock: it finishes and every parked reader gets its read lock at once. */
  function WakeAll(s: State, i: nat): seq<Pc>
    requires i < |s.pc|
  {
    seq(|s.pc|, j requires 0 <= j < |s.pc| =>
      if j == i then Finished else if s.pc[j] == Parked then Locking(0) else s.pc[j])
  }

  function Step(jobs: seq<Job>, cap: nat, s: State, i: nat): State
    requires |s.pc| == |jobs| && CanStep(jobs, cap, s, i)
  {
    match s.pc[i]
    case Fresh =>
      if jobs[i].parallelSafe then s.(pc := s.pc[i := Slotted], slots := s.slots + {i})
      else s.(pc := s.pc[i := Pending], writer := Some(i))
    case Pending => s.(pc := s.pc[i := RunningAlone], log := s.log + [i])
    case RunningAlone => s.(pc := WakeAll(s, i), writer := None, readers := s.readers + ParkedJobs(s))
    case Slotted =>
      if s.writer == None then s.(pc := s.pc[i := Locking(0)], readers := s.readers + {i})
      else s.(pc := s.pc[i := Parked])
    case Locking(held) =>
      if held < |jobs[i].groups| then
        s.(pc := s.pc[i := Locking(held + 1)], owner := s.owner[jobs[i].groups[held] := i])
      else s.(pc := s.pc[i := Working], log := s.log + [i])
    case Working => s.(pc := s.pc[i := Unlocking(|jobs[i].groups|)])
    case Unlocking(held) =>
      if 0 < held <= |jobs[i].groups| then
        s.(pc := s.pc[i := Unlocking(held - 1)], owner := s.owner - {jobs[i].groups[held - 1]})
      else s.(pc := s.pc[i := Leaving], readers := s.readers - {i})
    case _ => s.(pc := s.pc[i := Finished], slots := s.slots - {i})
  }

  /** Sorted without repeats, as `groupByTool` leaves a job's groups. */
  ghost predicate Increasing(groups: seq<string>)
  {
    forall a, b :: 0 <= a < b < |groups| ==> Less(groups[a], groups[b])
  }

  // ---- the invariant --------------------------------------------------------------

  predicate Reading(pc: Pc)
  {
    pc.Locking? || pc.Working? || pc.Unlocking?
  }

  predicate HasSlot(pc: Pc)
  {
    pc.Slotted? || pc.Parked? || Reading(pc) || pc.Leaving?
  }

  predicate Writing(pc: Pc)
  {
    pc.Pending? || pc.RunningAlone?
  }

  predicate HasRun(pc: Pc)
  {
    pc.RunningAlone? || pc.Working? || pc.Unlocking? || pc.Leaving? || pc.Finished?
  }

  /** How many of its groups a goroutine holds. */
  function Held(job: Job, pc: Pc): nat
  {
    match pc
    case Locking(held) => held
    case Working => |job.groups|
    case Unlocking(held) => held
    case _ => 0
  }

  /** A goroutine that still wants a group. */
  predicate Waiting(job: Job, pc: Pc)
  {
    pc.Locking? && pc.held < |job.groups|
  }

  /** `i` holds mutex `g`. */
  predicate Holds(jobs: seq<Job>, s: State, i: nat, g: string)
    requires |s.pc| == |jobs|
  {
    i < |jobs| && exists k :: 0 <= k < Held(jobs[i], s.pc[i]) && k < |jobs[i].groups| && jobs[i].groups[k] == g
  }

  ghost predicate SlotsMatch(jobs: seq<Job>, cap: nat, s: State)
    requires |s.pc| == |jobs|
  {
    && (forall i: nat :: i in s.slots <==> i < |jobs| && HasSlot(s.pc[i]))
    && |s.slots| <= cap
  }

  ghost predicate ReadersMatch(jobs: seq<Job>, s: State)
    requires |s.pc| == |jobs|
  {
    forall i: nat :: i in s.readers <==> i < |jobs| && Reading(s.pc[i])
  }

  ghost predicate WriterMatches(jobs: seq<Job>, s: State)
    requires |s.pc| == |jobs|
  {
    && (forall i: nat :: i < |jobs| ==> (Writing(s.pc[i]) <==> s.writer == Some(i)))
    && (s.writer.Some? ==> s.writer.value < |jobs|)
  }

  ghost predicate DistinctUpTo(groups: seq<string>, n: nat)
    requires n <= |groups|
  {
    forall a, b :: 0 <= a < b < n ==> groups[a] != groups[b]
  }

  /** Program counters fit their job and the lock state. */
  ghost predicate PcFits(job: Job, s: State, pc: Pc)
  {
    && Held(job, pc) <= |job.groups|
    && DistinctUpTo(job.groups, Held(job, pc))
    && (HasSlot(pc) ==> job.parallelSafe)
    && (Writing(pc) ==> !job.parallelSafe)
    && (pc.RunningAlone? ==> s.readers == {})
    && (pc.Parked? ==> s.writer.Some?)
  }

  ghost predicate PcsMatch(jobs: seq<Job>, s: State)
    requires |s.pc| == |jobs|
  {
    forall i :: 0 <= i < |jobs| ==> PcFits(jobs[i], s, s.pc[i])
  }

  ghost predicate OwnersMatch(jobs: seq<Job>, s: State)
    requires |s.pc| == |jobs|
  {
    && (forall g :: g in s.owner ==> Holds(jobs, s, s.owner[g], g))
    && (forall i: nat, g :: Holds(jobs, s, i, g) ==> g in s.owner && s.owner[g] == i)
  }

  ghost predicate LogMatches(jobs: seq<Job>, s: State)
    requires |s.pc| == |jobs|
  {
    && (forall i: nat :: i in s.log <==> i < |jobs| && HasRun(s.pc[i]))
    && (forall a, b :: 0 <= a < b < |s.log| ==> s.log[a] != s.log[b])
  }

  ghost predicate Inv(jobs: seq<Job>, cap: nat, s: State)
  {
    && |s.pc| == |jobs|
    && SlotsMatch(jobs, cap, s) && ReadersMatch(jobs, s) && WriterMatches(jobs, s)
    && PcsMatch(jobs, s) && OwnersMatch(jobs, s) && LogMatches(jobs, s)
  }

  lemma InitialInv(jobs: seq<Job>, cap: nat)
    ensures Inv(jobs, cap, Initial(jobs))
  {
  }

  lemma SlotsKept(jobs: seq<Job>, cap: nat, s: State, i: nat)
    requires Inv(jobs, cap, s) && CanStep(jobs, cap, s, i)
    ensures |Step(jobs, cap, s, i).pc| == |jobs| && SlotsMatch(jobs, cap, Step(jobs, cap, s, i))
  {
    assert PcFits(jobs[i], s, s.pc[i]);
    var t := Step(jobs, cap, s, i);
    forall j: nat ensures j in t.slots <==> j < |jobs| && HasSlot(t.pc[j]) {
      assert j in s.slots <==> j < |jobs| && HasSlot(s.pc[j]);
    }
  }

  lemma ReadersKept(jobs: seq<Job>, cap: nat, s: State, i: nat)
    requires Inv(jobs, cap, s) && CanStep(jobs, cap, s, i)
    ensures |Step(jobs, cap, s, i).pc| == |jobs| && ReadersMatch(jobs, Step(jobs, cap, s, i))
  {
    assert PcFits(jobs[i], s, s.pc[i]);
    var t := Step(jobs, cap, s, i);
    forall j: nat ensures j in t.readers <==> j < |jobs| && Reading(t.pc[j]) {
      assert j in s.readers <==> j < |jobs| && Reading(s.pc[j]);
    }
  }

  lemma WriterKept(jobs: seq<Job>, cap: nat, s: State, i: nat)
    requires Inv(jobs, cap, s) && CanStep(jobs, cap, s, i)
    ensures |Step(jobs, cap, s, i).pc| == |jobs| && WriterMatches(jobs, Step(jobs, cap, s, i))
  {
    assert PcFits(jobs[i], s, s.pc[i]);
    var t := Step(jobs, cap, s, i);
    forall j: nat | j < |jobs| ensures Writing(t.pc[j]) <==> t.writer == Some(j) {
      assert Writing(s.pc[j]) <==> s.writer == Some(j);
    }
  }

  lemma FreeIsNew(jobs: seq<Job>, s: State, i: nat)
    requires |s.pc| == |jobs| && i < |jobs| && OwnersMatch(jobs, s) && Waiting(jobs[i], s.pc[i])
    requires DistinctUpTo(jobs[i].groups, s.pc[i].held) && jobs[i].groups[s.pc[i].held] !in s.owner
    ensures DistinctUpTo(jobs[i].groups, s.pc[i].held + 1)
  {
    forall a | 0 <= a < s.pc[i].held ensures jobs[i].groups[a] != jobs[i].groups[s.pc[i].held] {
      assert Holds(jobs, s, i, jobs[i].groups[a]);
    }
  }

  lemma OwnGroupsKept(job: Job, pc: Pc, next: Pc)
    requires Held(job, pc) <= |job.groups| && DistinctUpTo(job.groups, Held(job, pc))
    requires Held(job, next) <= Held(job, pc) || (Waiting(job, pc) && next == Locking(pc.held + 1))
    requires Waiting(job, pc) ==> DistinctUpTo(job.groups, pc.held + 1)
    ensures Held(job, next) <= |job.groups| && DistinctUpTo(job.groups, Held(job, next))
  {
  }

  lemma OwnPcKept(jobs: seq<Job>, cap: nat, s: State, i: nat)
    requires |s.pc| == |jobs| && CanStep(jobs, cap, s, i) && PcFits(jobs[i], s, s.pc[i])
    requires Waiting(jobs[i], s.pc[i]) ==> DistinctUpTo(jobs[i].groups, s.pc[i].held + 1)
    ensures |Step(jobs, cap, s, i).pc| == |jobs|
    ensures PcFits(jobs[i], Step(jobs, cap, s, i), Step(jobs, cap, s, i).pc[i])
  {
    OwnGroupsKept(jobs[i], s.pc[i], Step(jobs, cap, s, i).pc[i]);
  }

  lemma PcsKept(jobs: seq<Job>, cap: nat, s: State, i: nat)
    requires Inv(jobs, cap, s) && CanStep(jobs, cap, s, i)
    ensures |Step(jobs, cap, s, i).pc| == |jobs| && PcsMatch(jobs, Step(jobs, cap, s, i))
  {
    var t := Step(jobs, cap, s, i);
    assert PcFits(jobs[i], s, s.pc[i]);
    if Waiting(jobs[i], s.pc[i]) {
      FreeIsNew(jobs, s, i);
    }
    OwnPcKept(jobs, cap, s, i);
    forall j | 0 <= j < |jobs| ensures PcFits(jobs[j], t, t.pc[j]) {
      assert PcFits(jobs[j], s, s.pc[j]);
    }
  }

  lemma OwnersUntouched(jobs: seq<Job>, s: State, t: State)
    requires |s.pc| == |t.pc| == |jobs| && OwnersMatch(jobs, s) && t.owner == s.owner
    requires forall j :: 0 <= j < |jobs| ==> Held(jobs[j], t.pc[j]) == Held(jobs[j], s.pc[j])
    ensures OwnersMatch(jobs, t)
  {
    assert forall j: nat, g :: Holds(jobs, t, j, g) <==> Holds(jobs, s, j, g);
  }

  lemma OwnersAfterLock(jobs: seq<Job>, s: State, i: nat, held: nat)
    requires |s.pc| == |jobs| && OwnersMatch(jobs, s) && i < |jobs| && s.pc[i] == Locking(held)
    requires held < |jobs[i].groups| && jobs[i].groups[held] !in s.owner
    ensures OwnersMatch(jobs, s.(pc := s.pc[i := Locking(held + 1)], owner := s.owner[jobs[i].groups[held] := i]))
  {
    var t := s.(pc := s.pc[i := Locking(held + 1)], owner := s.owner[jobs[i].groups[held] := i]);
    var taken := jobs[i].groups[held];
    forall j: nat, g ensures Holds(jobs, t, j, g) <==> Holds(jobs, s, j, g) || (j == i && g == taken) {
      if j == i && g == taken {
        assert held < Held(jobs[i], t.pc[i]) && jobs[i].groups[held] == g;
      }
    }
    assert forall j: nat :: !Holds(jobs, s, j, taken);
  }

  lemma OwnersAfterUnlock(jobs: seq<Job>, s: State, i: nat, held: nat)
    requires |s.pc| == |jobs| && OwnersMatch(jobs, s) && i < |jobs| && s.pc[i] == Unlocking(held)
    requires 0 < held <= |jobs[i].groups| && PcFits(jobs[i], s, s.pc[i])
    ensures OwnersMatch(jobs, s.(pc := s.pc[i := Unlocking(held - 1)], owner := s.owner - {jobs[i].groups[held - 1]}))
  {
    var t := s.(pc := s.pc[i := Unlocking(held - 1)], owner := s.owner - {jobs[i].groups[held - 1]});
    var freed := jobs[i].groups[held - 1];
    assert Holds(jobs, s, i, freed);
    forall j: nat, g ensures Holds(jobs, t, j, g) <==> Holds(jobs, s, j, g) && g != freed {
      if Holds(jobs, s, j, g) && g == freed {
        assert j == i;
      }
    }
  }

  /** A step that takes or frees no group mutex leaves everybody's holdings alone. */
  lemma HeldUntouched(jobs: seq<Job>, cap: nat, s: State, i: nat, j: nat)
    requires |s.pc| == |jobs| && CanStep(jobs, cap, s, i) && PcFits(jobs[i], s, s.pc[i]) && j < |jobs|
    requires !Waiting(jobs[i], s.pc[i]) && !(s.pc[i].Unlocking? && s.pc[i].held > 0)
    ensures |Step(jobs, cap, s, i).pc| == |jobs| && Step(jobs, cap, s, i).owner == s.owner
    ensures Held(jobs[j], Step(jobs, cap, s, i).pc[j]) == Held(jobs[j], s.pc[j])
  {
    var t := Step(jobs, cap, s, i);
    if j != i {
      assert t.pc[j] == s.pc[j] || (s.pc[j] == Parked && t.pc[j] == Locking(0));
    }
  }

  lemma OwnersKept(jobs: seq<Job>, cap: nat, s: State, i: nat)
    requires Inv(jobs, cap, s) && CanStep(jobs, cap, s, i)
    ensures |Step(jobs, cap, s, i).pc| == |jobs| && OwnersMatch(jobs, Step(jobs, cap, s, i))
  {
    var t := Step(jobs, cap, s, i);
    assert PcFits(jobs[i], s, s.pc[i]);
    if Waiting(jobs[i], s.pc[i]) {
      var held := s.pc[i].held;
      OwnersAfterLock(jobs, s, i, held);
      assert t == s.(pc := s.pc[i := Locking(held + 1)], owner := s.owner[jobs[i].groups[held] := i]);
    } else if s.pc[i].Unlocking? && s.pc[i].held > 0 {
      var held := s.pc[i].held;
      OwnersAfterUnlock(jobs, s, i, held);
      assert t == s.(pc := s.pc[i := Unlocking(held - 1)], owner := s.owner - {jobs[i].groups[held - 1]});
    } else {
      OwnersKeptElsewhere(jobs, cap, s, i);
    }
  }

  lemma OwnersKeptElsewhere(jobs: seq<Job>, cap: nat, s: State, i: nat)
    requires |s.pc| == |jobs| && PcsMatch(jobs, s) && OwnersMatch(jobs, s) && CanStep(jobs, cap, s, i)
    requires !Waiting(jobs[i], s.pc[i]) && !(s.pc[i].Unlocking? && s.pc[i].held > 0)
    ensures |Step(jobs, cap, s, i).pc| == |jobs| && OwnersMatch(jobs, Step(jobs, cap, s, i))
  {
    var t := Step(jobs, cap, s, i);
    forall j: nat | j < |jobs| ensures |t.pc| == |jobs| && Held(jobs[j], t.pc[j]) == Held(jobs[j], s.pc[j]) {
      HeldUntouched(jobs, cap, s, i, j);
    }
    HeldUntouched(jobs, cap, s, i, i);
    OwnersUntouched(jobs, s, t);
  }

  predicate EntersRun(job: Job, pc: Pc)
  {
    pc.Pending? || (pc.Locking? && pc.held >= |job.groups|)
  }

  /** Only the start of `run` appends to the log, and only then does a goroutine begin to have run. */
  lemma RunEffect(jobs: seq<Job>, cap: nat, s: State, i: nat, j: nat)
    requires |s.pc| == |jobs| && CanStep(jobs, cap, s, i) && j < |jobs|
    ensures |Step(jobs, cap, s, i).pc| == |jobs|
    ensures HasRun(Step(jobs, cap, s, i).pc[j]) <==> HasRun(s.pc[j]) || (j == i && EntersRun(jobs[i], s.pc[i]))
  {
  }

  lemma LogKept(jobs: seq<Job>, cap: nat, s: State, i: nat)
    requires Inv(jobs, cap, s) && CanStep(jobs, cap, s, i)
    ensures |Step(jobs, cap, s, i).pc| == |jobs| && LogMatches(jobs, Step(jobs, cap, s, i))
  {
    var t := Step(jobs, cap, s, i);
    var starts := EntersRun(jobs[i], s.pc[i]);
    assert t.log == if starts then s.log + [i] else s.log;
    assert starts ==> i !in s.log;
    forall j: nat ensures j in t.log <==> j < |jobs| && |t.pc| == |jobs| && HasRun(t.pc[j]) {
      assert j in t.log <==> j in s.log || (j == i && starts);
      if j < |jobs| {
        RunEffect(jobs, cap, s, i, j);
      }
    }
    RunEffect(jobs, cap, s, i, i);
    DistinctAfter(s.log, t.log, i);
  }

  lemma DistinctAfter(log: seq<nat>, longer: seq<nat>, i: nat)
    requires longer == log || (longer == log + [i] && i !in log)
    requires forall a, b :: 0 <= a < b < |log| ==> log[a] != log[b]
    ensures forall a, b :: 0 <= a < b < |longer| ==> longer[a] != longer[b]
  {
  }

  lemma InvKept(jobs: seq<Job>, cap: nat, s: State, i: nat)
    requires Inv(jobs, cap, s) && CanStep(jobs, cap, s, i)
    ensures Inv(jobs, cap, Step(jobs, cap, s, i))
  {
    SlotsKept(jobs, cap, s, i);
    ReadersKept(jobs, cap, s, i);
    WriterKept(jobs, cap, s, i);
    PcsKept(jobs, cap, s, i);
    OwnersKept(jobs, cap, s, i);
    LogKept(jobs, cap, s, i);
  }

  // ---- safety ---------------------------------------------------------------------

  predicate InRun(pc: Pc)
  {
    pc.RunningAlone? || pc.Working?
  }

  function RunningJobs(s: State): set<nat>
  {
    set i | 0 <= i < |s.pc| && InRun(s.pc[i])
  }

  /** What `schedule` promises about the jobs inside `run` at any moment. */
  ghost predicate Safe(jobs: seq<Job>, cap: nat, s: State)
    requires |s.pc| == |jobs|
  {
    && (forall i, j :: 0 <= i < j < |jobs| && InRun(s.pc[i]) && InRun(s.pc[j]) ==>
          && jobs[i].parallelSafe && jobs[j].parallelSafe
          && (forall g :: g in jobs[i].groups ==> g !in jobs[j].groups))
    && |RunningJobs(s)| <= cap
  }

  lemma {:induction false} SubsetSize(a: set<nat>, b: set<nat>)
    requires a <= b
    ensures |a| <= |b|
  {
    if a != {} {
      var x :| x in a;
      SubsetSize(a - {x}, b - {x});
    }
  }

  lemma WorkingHolds(jobs: seq<Job>, s: State, i: nat, g: string)
    requires |s.pc| == |jobs| && OwnersMatch(jobs, s)
    requires i < |jobs| && s.pc[i].Working? && g in jobs[i].groups
    ensures g in s.owner && s.owner[g] == i
  {
    var k :| 0 <= k < |jobs[i].groups| && jobs[i].groups[k] == g;
    assert Holds(jobs, s, i, g);
  }

  lemma AloneMeansAlone(jobs: seq<Job>, cap: nat, s: State, i: nat, j: nat)
    requires Inv(jobs, cap, s) && i < |jobs| && j < |jobs| && i != j
    requires s.pc[i].RunningAlone?
    ensures !InRun(s.pc[j])
  {
    assert PcFits(jobs[i], s, s.pc[i]);
    assert j !in s.readers;
    assert Writing(s.pc[i]);
  }

  lemma InvIsSafe(jobs: seq<Job>, cap: nat, s: State)
    requires Inv(jobs, cap, s) && cap >= 1
    ensures Safe(jobs, cap, s)
  {
    forall i, j | 0 <= i < |jobs| && 0 <= j < |jobs| && i != j && InRun(s.pc[i]) && InRun(s.pc[j])
      ensures jobs[i].parallelSafe && forall g :: g in jobs[i].groups ==> g !in jobs[j].groups
    {
      if s.pc[i].RunningAlone? {
        AloneMeansAlone(jobs, cap, s, i, j);
      } else if s.pc[j].RunningAlone? {
        AloneMeansAlone(jobs, cap, s, j, i);
      } else {
        assert PcFits(jobs[i], s, s.pc[i]);
        forall g | g in jobs[i].groups ensures g !in jobs[j].groups {
          WorkingHolds(jobs, s, i, g);
          if g in jobs[j].groups {
            WorkingHolds(jobs, s, j, g);
          }
        }
      }
    }
    RunningBounded(jobs, cap, s);
  }

  lemma OnlyTheLoner(jobs: seq<Job>, cap: nat, s: State, i: nat)
    requires Inv(jobs, cap, s) && i < |jobs| && s.pc[i].RunningAlone?
    ensures RunningJobs(s) <= {i}
  {
    assert forall j: nat :: j < |jobs| && j != i ==> !s.pc[j].RunningAlone? by {
      assert forall j: nat :: j < |jobs| ==> (Writing(s.pc[j]) <==> s.writer == Some(j));
    }
    assert forall j: nat :: j < |jobs| ==> !s.pc[j].Working? by {
      assert PcFits(jobs[i], s, s.pc[i]);
      assert forall j: nat :: j in s.readers <==> j < |jobs| && Reading(s.pc[j]);
    }
  }

  lemma RunningBounded(jobs: seq<Job>, cap: nat, s: State)
    requires Inv(jobs, cap, s) && cap >= 1
    ensures |RunningJobs(s)| <= cap
  {
    if w: nat :| w < |jobs| && s.pc[w].RunningAlone? {
      OnlyTheLoner(jobs, cap, s, w);
      SubsetSize(RunningJobs(s), {w});
    } else {
      SubsetSize(RunningJobs(s), s.slots);
    }
  }

  // ---- runs -------------------------------------------------------------------------

  /** A run: states from the initial one, each by one step of some goroutine. */
  ghost predicate IsRun(jobs: seq<Job>, cap: nat, run: seq<State>)
  {
    && run != [] && run[0] == Initial(jobs)
    && (forall n :: 0 <= n < |run| ==> |run[n].pc| == |jobs|)
    && (forall n :: 0 <= n < |run| - 1 ==> StepsTo(jobs, cap, run[n], run[n + 1]))
  }

  ghost predicate StepsTo(jobs: seq<Job>, cap: nat, s: State, t: State)
    requires |s.pc| == |jobs|
  {
    exists i: nat :: CanStep(jobs, cap, s, i) && t == Step(jobs, cap, s, i)
  }

  lemma InvAfter(jobs: seq<Job>, cap: nat, s: State, t: State)
    requires Inv(jobs, cap, s) && StepsTo(jobs, cap, s, t)
    ensures Inv(jobs, cap, t)
  {
    var i: nat :| CanStep(jobs, cap, s, i) && t == Step(jobs, cap, s, i);
    InvKept(jobs, cap, s, i);
  }

  lemma {:induction false} RunKeepsInv(jobs: seq<Job>, cap: nat, run: seq<State>, n: nat)
    requires IsRun(jobs, cap, run) && n < |run|
    ensures forall m :: 0 <= m <= n ==> Inv(jobs, cap, run[m])
  {
    if n == 0 {
      InitialInv(jobs, cap);
    } else {
      RunKeepsInv(jobs, cap, run, n - 1);
      assert StepsTo(jobs, cap, run[n - 1], run[n - 1 + 1]);
      InvAfter(jobs, cap, run[n - 1], run[n]);
    }
  }

  lemma InvAt(jobs: seq<Job>, cap: nat, run: seq<State>, n: nat)
    requires IsRun(jobs, cap, run) && n < |run|
    ensures Inv(jobs, cap, run[n])
  {
    RunKeepsInv(jobs, cap, run, n);
  }

  /** Safety in every reachable state: exclusive jobs alone, groups disjoint, concurrency bounded. */
  lemma AlwaysSafe(jobs: seq<Job>, concurrency: int, run: seq<State>, n: nat)
    requires IsRun(jobs, Capacity(concurrency), run) && n < |run|
    ensures Safe(jobs, Capacity(concurrency), run[n])
    ensures |RunningJobs(run[n])| <= 1 || |RunningJobs(run[n])| <= concurrency
  {
    InvAt(jobs, Capacity(concurrency), run, n);
    InvIsSafe(jobs, Capacity(concurrency), run[n]);
  }

  /** The semaphore turns a parallel-safe job away exactly when as many slots are taken as the concurrency says. */
  lemma SlotsAdmitExactly(jobs: seq<Job>, concurrency: int, s: State, i: nat)
    requires |s.pc| == |jobs| && i < |jobs| && s.pc[i] == Fresh && jobs[i].parallelSafe
    ensures CanStep(jobs, Capacity(concurrency), s, i) <==> |s.slots| < 1 || |s.slots| < concurrency
  {
  }

  /** `j` has taken group `g` and not yet given it back. */
  predicate InGroup(jobs: seq<Job>, s: State, j: nat, g: string)
    requires |s.pc| == |jobs|
  {
    j < |jobs| &&
    match s.pc[j]
    case Locking(held) => held <= |jobs[j].groups| && g in jobs[j].groups[..held]
    case Working => g in jobs[j].groups
    case Unlocking(held) => held <= |jobs[j].groups| && g in jobs[j].groups[..held]
    case _ => false
  }

  lemma HoldsIsInGroup(jobs: seq<Job>, cap: nat, s: State, j: nat, g: string)
    requires Inv(jobs, cap, s)
    ensures Holds(jobs, s, j, g) <==> InGroup(jobs, s, j, g)
  {
    if j < |jobs| {
      assert PcFits(jobs[j], s, s.pc[j]);
      var held, groups := Held(jobs[j], s.pc[j]), jobs[j].groups;
      assert g in groups[..held] <==> exists k :: 0 <= k < held && groups[k] == g;
    }
  }

  /** In every reachable state a mutex is given to whoever wants it unless another job has it: a group unless
      some job holds it, the writer's side unless another writer waits or runs, and its work unless a reader is left. */
  lemma LocksAdmitExactly(jobs: seq<Job>, concurrency: int, run: seq<State>, n: nat, i: nat)
    requires IsRun(jobs, Capacity(concurrency), run) && n < |run| && i < |jobs|
    ensures var s, cap := run[n], Capacity(concurrency);
            match s.pc[i]
            case Locking(held) => held < |jobs[i].groups| ==>
              (CanStep(jobs, cap, s, i) <==> forall j: nat :: !InGroup(jobs, s, j, jobs[i].groups[held]))
            case Fresh => !jobs[i].parallelSafe ==>
              (CanStep(jobs, cap, s, i) <==> forall j: nat :: j < |jobs| ==> s.pc[j] != Pending && s.pc[j] != RunningAlone)
            case Pending => CanStep(jobs, cap, s, i) <==>
              forall j: nat :: j < |jobs| ==> !s.pc[j].Locking? && s.pc[j] != Working && !s.pc[j].Unlocking?
            case _ => true
  {
    var s, cap := run[n], Capacity(concurrency);
    InvAt(jobs, cap, run, n);
    match s.pc[i]
    case Locking(held) =>
      if held < |jobs[i].groups| {
        var g := jobs[i].groups[held];
        forall j: nat ensures Holds(jobs, s, j, g) <==> InGroup(jobs, s, j, g) {
          HoldsIsInGroup(jobs, cap, s, j, g);
        }
        assert g in s.owner ==> Holds(jobs, s, s.owner[g], g);
      }
    case Fresh => WriterIsSome(jobs, cap, s);
    case Pending => ReaderIsSome(jobs, cap, s);
    case _ =>
  }

  lemma WriterIsSome(jobs: seq<Job>, cap: nat, s: State)
    requires Inv(jobs, cap, s)
    ensures s.writer == None <==> forall j: nat :: j < |jobs| ==> s.pc[j] != Pending && s.pc[j] != RunningAlone
  {
    if s.writer.Some? {
      assert Writing(s.pc[s.writer.value]);
    }
  }

  lemma ReaderIsSome(jobs: seq<Job>, cap: nat, s: State)
    requires Inv(jobs, cap, s)
    ensures s.readers == {}
       <==> forall j: nat :: j < |jobs| ==> !s.pc[j].Locking? && s.pc[j] != Working && !s.pc[j].Unlocking?
  {
    if s.readers != {} {
      var j :| j in s.readers;
      assert Reading(s.pc[j]);
    } else {
      assert forall j: nat :: j < |jobs| ==> !Reading(s.pc[j]);
    }
  }

  /** While a job that must run alone waits or runs, no further job gets past the readers' side. */
  lemma WaitingWriterBlocks(jobs: seq<Job>, concurrency: int, run: seq<State>, n: nat, i: nat)
    requires IsRun(jobs, Capacity(concurrency), run) && n < |run|
    requires CanStep(jobs, Capacity(concurrency), run[n], i) && run[n].pc[i] == Slotted
    ensures Step(jobs, Capacity(concurrency), run[n], i).pc[i]
         == if exists j :: 0 <= j < |jobs| && run[n].pc[j] in {Pending, RunningAlone} then Parked else Locking(0)
  {
    InvAt(jobs, Capacity(concurrency), run, n);
    WriterIsSome(jobs, Capacity(concurrency), run[n]);
  }

  function Below(n: nat): (s: set<nat>)
    ensures |s| == n && forall i: nat :: i in s <==> i < n
  {
    if n == 0 then {} else Below(n - 1) + {n - 1}
  }

  /** The first `n` goroutines are inside `run`, the others have not begun. */
  ghost predicate Entered(jobs: seq<Job>, s: State, n: nat)
  {
    && |s.pc| == |jobs| && n <= |jobs|
    && (forall i :: 0 <= i < |jobs| ==> s.pc[i] == if i < n then Working else Fresh)
    && s.slots == Below(n) && s.writer == None
  }

  lemma NextEnters(jobs: seq<Job>, cap: nat, s: State, n: nat) returns (a: State, b: State, c: State)
    requires Entered(jobs, s, n) && n < |jobs| && n < cap && jobs[n] == Job(true, [])
    ensures StepsTo(jobs, cap, s, a) && |a.pc| == |jobs| && StepsTo(jobs, cap, a, b)
    ensures |b.pc| == |jobs| && StepsTo(jobs, cap, b, c) && Entered(jobs, c, n + 1)
  {
    assert CanStep(jobs, cap, s, n);
    a := Step(jobs, cap, s, n);
    assert CanStep(jobs, cap, a, n);
    b := Step(jobs, cap, a, n);
    assert CanStep(jobs, cap, b, n);
    c := Step(jobs, cap, b, n);
  }

  lemma OneMoreEnters(jobs: seq<Job>, cap: nat, run: seq<State>, n: nat) returns (more: seq<State>)
    requires IsRun(jobs, cap, run) && Entered(jobs, run[|run| - 1], n)
    requires n < |jobs| && n < cap && jobs[n] == Job(true, [])
    ensures IsRun(jobs, cap, more) && Entered(jobs, more[|more| - 1], n + 1)
  {
    var a, b, c := NextEnters(jobs, cap, run[|run| - 1], n);
    Prolong(jobs, cap, run, a);
    Prolong(jobs, cap, run + [a], b);
    Prolong(jobs, cap, run + [a] + [b], c);
    more := run + [a] + [b] + [c];
  }

  lemma {:induction false} RunEntering(jobs: seq<Job>, cap: nat, n: nat) returns (run: seq<State>)
    requires n <= |jobs| && n <= cap && forall i :: 0 <= i < n ==> jobs[i] == Job(true, [])
    ensures IsRun(jobs, cap, run) && Entered(jobs, run[|run| - 1], n)
  {
    if n == 0 {
      run := [Initial(jobs)];
    } else {
      run := RunEntering(jobs, cap, n - 1);
      run := OneMoreEnters(jobs, cap, run, n - 1);
    }
  }

  lemma Prolong(jobs: seq<Job>, cap: nat, run: seq<State>, s: State)
    requires IsRun(jobs, cap, run) && |s.pc| == |jobs| && StepsTo(jobs, cap, run[|run| - 1], s)
    ensures IsRun(jobs, cap, run + [s])
  {
    var more := run + [s];
    forall n | 0 <= n < |more| - 1 ensures StepsTo(jobs, cap, more[n], more[n + 1]) {
      assert n < |run| - 1 ==> StepsTo(jobs, cap, run[n], run[n + 1]);
    }
  }

  /** The bound is reached: as many jobs as it allows can be inside `run` together. */
  lemma ConcurrencyIsReached(jobs: seq<Job>, concurrency: int, n: nat)
    requires n <= |jobs| && (n <= 1 || n <= concurrency)
    requires forall i :: 0 <= i < n ==> jobs[i] == Job(true, [])
    ensures exists run :: IsRun(jobs, Capacity(concurrency), run) && |RunningJobs(run[|run| - 1])| == n
  {
    var run := RunEntering(jobs, Capacity(concurrency), n);
    assert RunningJobs(run[|run| - 1]) == Below(n);
  }

  // ---- termination -------------------------------------------------------------------

  /** How many steps a goroutine has left at most. */
  function StepsLeft(job: Job, pc: Pc): nat
  {
    var g := |job.groups|;
    match pc
    case Fresh => 2 * g + 7
    case Pending => 2
    case RunningAlone => 1
    case Slotted => 2 * g + 6
    case Parked => 2 * g + 5
    case Locking(held) => 4 + g + (if held <= g then g - held else 0)
    case Working => 3 + g
    case Unlocking(held) => 2 + held
    case Leaving => 1
    case Finished => 0
  }

  function TotalLeft(jobs: seq<Job>, pcs: seq<Pc>): nat
    requires |jobs| == |pcs|
  {
    if jobs == [] then 0
    else StepsLeft(jobs[0], pcs[0]) + TotalLeft(jobs[1..], pcs[1..])
  }

  lemma {:induction false} TotalFalls(jobs: seq<Job>, before: seq<Pc>, after: seq<Pc>, i: nat)
    requires |jobs| == |before| == |after| && i < |jobs|
    requires forall j :: 0 <= j < |jobs| ==> StepsLeft(jobs[j], after[j]) <= StepsLeft(jobs[j], before[j])
    requires StepsLeft(jobs[i], after[i]) < StepsLeft(jobs[i], before[i])
    ensures TotalLeft(jobs, after) < TotalLeft(jobs, before)
  {
    TotalNeverRises(jobs[1..], before[1..], after[1..]);
    if i > 0 {
      TotalFalls(jobs[1..], before[1..], after[1..], i - 1);
    }
  }

  lemma {:induction false} TotalNeverRises(jobs: seq<Job>, before: seq<Pc>, after: seq<Pc>)
    requires |jobs| == |before| == |after|
    requires forall j :: 0 <= j < |jobs| ==> StepsLeft(jobs[j], after[j]) <= StepsLeft(jobs[j], before[j])
    ensures TotalLeft(jobs, after) <= TotalLeft(jobs, before)
  {
    if jobs != [] {
      TotalNeverRises(jobs[1..], before[1..], after[1..]);
    }
  }

  lemma OtherNeverAdds(jobs: seq<Job>, cap: nat, s: State, i: nat, j: nat)
    requires |s.pc| == |jobs| && CanStep(jobs, cap, s, i) && j < |jobs| && j != i
    ensures |Step(jobs, cap, s, i).pc| == |jobs|
    ensures StepsLeft(jobs[j], Step(jobs, cap, s, i).pc[j]) <= StepsLeft(jobs[j], s.pc[j])
  {
    var t := Step(jobs, cap, s, i);
    assert t.pc[j] == s.pc[j] || (s.pc[j] == Parked && t.pc[j] == Locking(0));
  }

  lemma OwnStepFalls(jobs: seq<Job>, cap: nat, s: State, i: nat)
    requires |s.pc| == |jobs| && CanStep(jobs, cap, s, i) && Held(jobs[i], s.pc[i]) <= |jobs[i].groups|
    ensures |Step(jobs, cap, s, i).pc| == |jobs|
    ensures StepsLeft(jobs[i], Step(jobs, cap, s, i).pc[i]) < StepsLeft(jobs[i], s.pc[i])
  {
  }

  lemma StepFalls(jobs: seq<Job>, cap: nat, s: State, i: nat)
    requires Inv(jobs, cap, s) && CanStep(jobs, cap, s, i)
    ensures |Step(jobs, cap, s, i).pc| == |jobs|
    ensures TotalLeft(jobs, Step(jobs, cap, s, i).pc) < TotalLeft(jobs, s.pc)
  {
    var after := Step(jobs, cap, s, i).pc;
    assert PcFits(jobs[i], s, s.pc[i]);
    OwnStepFalls(jobs, cap, s, i);
    forall j: nat | j < |jobs| && j != i ensures StepsLeft(jobs[j], after[j]) <= StepsLeft(jobs[j], s.pc[j]) {
      OtherNeverAdds(jobs, cap, s, i, j);
    }
    TotalFalls(jobs, s.pc, after, i);
  }

  /** Every run is finite: it has at most as many steps as the initial state allows. */
  lemma {:induction false} RunsAreBounded(jobs: seq<Job>, cap: nat, run: seq<State>, n: nat)
    requires IsRun(jobs, cap, run) && n < |run|
    ensures n + TotalLeft(jobs, run[n].pc) <= TotalLeft(jobs, Initial(jobs).pc)
  {
    if n > 0 {
      RunsAreBounded(jobs, cap, run, n - 1);
      InvAt(jobs, cap, run, n - 1);
      assert StepsTo(jobs, cap, run[n - 1], run[n - 1 + 1]);
      var i: nat :| CanStep(jobs, cap, run[n - 1], i) && run[n] == Step(jobs, cap, run[n - 1], i);
      StepFalls(jobs, cap, run[n - 1], i);
    }
  }

  // ---- deadlock freedom ----------------------------------------------------------------

  /** Among the goroutines below `n` that still want a group, one wants the greatest. */
  lemma {:induction false} GreatestWanted(jobs: seq<Job>, s: State, n: nat) returns (i: nat)
    requires |s.pc| == |jobs| && n <= |jobs|
    requires exists j :: 0 <= j < n && Waiting(jobs[j], s.pc[j])
    ensures i < n && Waiting(jobs[i], s.pc[i])
    ensures forall j :: 0 <= j < n && Waiting(jobs[j], s.pc[j])
              ==> !Less(jobs[i].groups[s.pc[i].held], jobs[j].groups[s.pc[j].held])
  {
    var last := n - 1;
    if exists j :: 0 <= j < last && Waiting(jobs[j], s.pc[j]) {
      i := GreatestWanted(jobs, s, last);
      if Waiting(jobs[last], s.pc[last]) {
        var mine, theirs := jobs[i].groups[s.pc[i].held], jobs[last].groups[s.pc[last].held];
        if Less(mine, theirs) {
          forall j | 0 <= j < n && Waiting(jobs[j], s.pc[j])
            ensures !Less(theirs, jobs[j].groups[s.pc[j].held])
          {
            LessIrreflexive(theirs);
            if Less(theirs, jobs[j].groups[s.pc[j].held]) {
              LessTransitive(mine, theirs, jobs[j].groups[s.pc[j].held]);
            }
          }
          i := last;
        }
      }
    } else {
      i := last;
      LessIrreflexive(jobs[i].groups[s.pc[i].held]);
    }
  }

  lemma HoldersWantMore(jobs: seq<Job>, s: State)
    requires |s.pc| == |jobs|
    requires forall j :: 0 <= j < |jobs| ==> Increasing(jobs[j].groups)
    ensures forall j: nat, k: nat :: j < |jobs| && Waiting(jobs[j], s.pc[j]) && k < s.pc[j].held
              ==> Less(jobs[j].groups[k], jobs[j].groups[s.pc[j].held])
  {
  }

  /** A goroutine waiting for the greatest wanted group either gets it or waits for one that can go on. */
  lemma GroupsProgress(jobs: seq<Job>, cap: nat, s: State)
    requires Inv(jobs, cap, s)
    requires forall j :: 0 <= j < |jobs| ==> Increasing(jobs[j].groups)
    requires exists j :: 0 <= j < |jobs| && Waiting(jobs[j], s.pc[j])
    ensures exists i: nat :: CanStep(jobs, cap, s, i)
  {
    var i := GreatestWanted(jobs, s, |jobs|);
    var wanted := jobs[i].groups[s.pc[i].held];
    if wanted !in s.owner {
      assert CanStep(jobs, cap, s, i);
    } else {
      var h := s.owner[wanted];
      assert Holds(jobs, s, h, wanted);
      var k :| 0 <= k < Held(jobs[h], s.pc[h]) && k < |jobs[h].groups| && jobs[h].groups[k] == wanted;
      HoldersWantMore(jobs, s);
      assert CanStep(jobs, cap, s, h);
    }
  }

  /** Some unfinished goroutine can always step, whatever the interleaving so far. */
  lemma InvProgress(jobs: seq<Job>, cap: nat, s: State)
    requires Inv(jobs, cap, s) && cap >= 1
    requires forall j :: 0 <= j < |jobs| ==> Increasing(jobs[j].groups)
    requires exists j :: 0 <= j < |jobs| && s.pc[j] != Finished
    ensures exists i: nat :: CanStep(jobs, cap, s, i)
  {
    if exists j :: 0 <= j < |jobs| && Waiting(jobs[j], s.pc[j]) {
      GroupsProgress(jobs, cap, s);
    } else if i: nat :| i < |jobs| && (Reading(s.pc[i]) || s.pc[i].Leaving? || s.pc[i].RunningAlone?) {
      assert CanStep(jobs, cap, s, i);
    } else {
      assert s.readers == {};
      if s.writer.Some? {
        assert Writing(s.pc[s.writer.value]);
        assert CanStep(jobs, cap, s, s.writer.value);
      } else {
        NoLocksHeld(jobs, cap, s);
      }
    }
  }

  /** With no writer and no reader, only the semaphore can be contended, and then its holders can go on. */
  lemma NoLocksHeld(jobs: seq<Job>, cap: nat, s: State)
    requires Inv(jobs, cap, s) && cap >= 1 && s.writer == None
    requires forall j :: 0 <= j < |jobs| ==> !Reading(s.pc[j]) && !s.pc[j].Leaving?
    requires exists j :: 0 <= j < |jobs| && s.pc[j] != Finished
    ensures exists i: nat :: CanStep(jobs, cap, s, i)
  {
    var j :| 0 <= j < |jobs| && s.pc[j] != Finished;
    assert PcFits(jobs[j], s, s.pc[j]) && !Writing(s.pc[j]);
    if s.pc[j] == Fresh && jobs[j].parallelSafe && |s.slots| >= cap {
      var i :| i in s.slots;
      assert PcFits(jobs[i], s, s.pc[i]);
      assert CanStep(jobs, cap, s, i);
    } else {
      assert CanStep(jobs, cap, s, j);
    }
  }

  ghost predicate Stuck(jobs: seq<Job>, cap: nat, s: State)
    requires |s.pc| == |jobs|
  {
    forall i: nat :: !CanStep(jobs, cap, s, i)
  }

  predicate AllFinished(s: State)
  {
    forall i :: 0 <= i < |s.pc| ==> s.pc[i] == Finished
  }

  /** Deadlock freedom: a reachable state without a next step has finished every job, and conversely. */
  lemma StuckOnlyWhenFinished(jobs: seq<Job>, concurrency: int, run: seq<State>, n: nat)
    requires IsRun(jobs, Capacity(concurrency), run) && n < |run|
    requires forall j :: 0 <= j < |jobs| ==> Increasing(jobs[j].groups)
    ensures Stuck(jobs, Capacity(concurrency), run[n]) <==> AllFinished(run[n])
  {
    InvAt(jobs, Capacity(concurrency), run, n);
    if !AllFinished(run[n]) {
      InvProgress(jobs, Capacity(concurrency), run[n]);
    }
  }

  /** A run that cannot go on has entered `run` exactly once for every job. */
  lemma EachJobRunsOnce(jobs: seq<Job>, concurrency: int, run: seq<State>, n: nat)
    requires IsRun(jobs, Capacity(concurrency), run) && n < |run|
    requires forall j :: 0 <= j < |jobs| ==> Increasing(jobs[j].groups)
    requires Stuck(jobs, Capacity(concurrency), run[n])
    ensures multiset(run[n].log) == multiset(seq(|jobs|, i => i))
  {
    var log, all := run[n].log, seq(|jobs|, i => i);
    StuckOnlyWhenFinished(jobs, concurrency, run, n);
    InvAt(jobs, Capacity(concurrency), run, n);
    assert forall i: nat :: i in log <==> i < |jobs|;
    forall i: nat | i < |jobs| ensures i in all {
      assert all[i] == i;
    }
    SameDistinctMembers(log, all);
  }

  lemma SameDistinctMembers(xs: seq<nat>, ys: seq<nat>)
    requires forall a, b :: 0 <= a < b < |xs| ==> xs[a] != xs[b]
    requires forall a, b :: 0 <= a < b < |ys| ==> ys[a] != ys[b]
    requires forall i: nat :: i in xs <==> i in ys
    ensures multiset(xs) == multiset(ys)
  {
    forall i: nat ensures multiset(xs)[i] == multiset(ys)[i] {
      CountDistinct(xs, i);
      CountDistinct(ys, i);
    }
  }

  lemma {:induction false} CountDistinct(xs: seq<nat>, x: nat)
    requires forall a, b :: 0 <= a < b < |xs| ==> xs[a] != xs[b]
    ensures multiset(xs)[x] == if x in xs then 1 else 0
  {
    if xs != [] {
      CountDistinct(xs[1..], x);
      assert xs == [xs[0]] + xs[1..];
      assert forall b :: 0 <= b < |xs| - 1 ==> xs[1..][b] == xs[b + 1] != xs[0];
    }
  }

  /** Without the postcondition of `groupByTool` a job can deadlock on itself. */
  lemma RepeatedGroupDeadlocks(g: string)
    ensures var jobs := [Job(true, [g, g])];
            exists run: seq<State>, n: nat ::
              IsRun(jobs, 1, run) && n < |run| && Stuck(jobs, 1, run[n]) && !AllFinished(run[n])
  {
    var jobs := [Job(true, [g, g])];
    var s0 := Initial(jobs);
    var s1 := Step(jobs, 1, s0, 0);
    var s2 := Step(jobs, 1, s1, 0);
    var s3 := Step(jobs, 1, s2, 0);
    var run := [s0, s1, s2, s3];
    assert StepsTo(jobs, 1, s0, s1) && StepsTo(jobs, 1, s1, s2) && StepsTo(jobs, 1, s2, s3);
    assert IsRun(jobs, 1, run);
    assert s3.pc[0] == Locking(1) && run[3] == s3;
    assert Stuck(jobs, 1, run[3]) && !AllFinished(run[3]);
  }

  /** The first job locks `g`, the second `h`, one step after the other. */
  ghost function CrossedRun(g: string, h: string): seq<State>
  {
    [State([Fresh, Fresh], {}, None, {}, map[], []),
     State([Slotted, Fresh], {0}, None, {}, map[], []),
     State([Locking(0), Fresh], {0}, None, {0}, map[], []),
     State([Locking(1), Fresh], {0}, None, {0}, map[g := 0], []),
     State([Locking(1), Slotted], {0, 1}, None, {0}, map[g := 0], []),
     State([Locking(1), Locking(0)], {0, 1}, None, {0, 1}, map[g := 0], []),
     State([Locking(1), Locking(1)], {0, 1}, None, {0, 1}, map[g := 0, h := 1], [])]
  }

  lemma CrossedTakes(g: string, h: string)
    requires g != h
    ensures var jobs, run := [Job(true, [g, h]), Job(true, [h, g])], CrossedRun(g, h);
            forall n: nat :: n < 3 ==> StepsTo(jobs, 2, run[n], run[n + 1])
  {
    var jobs, run := [Job(true, [g, h]), Job(true, [h, g])], CrossedRun(g, h);
    assert StepsTo(jobs, 2, run[0], run[1]) by { assert run[1] == Step(jobs, 2, run[0], 0); }
    assert StepsTo(jobs, 2, run[1], run[2]) by { assert run[2] == Step(jobs, 2, run[1], 0); }
    assert StepsTo(jobs, 2, run[2], run[3]) by { assert run[3] == Step(jobs, 2, run[2], 0); }
  }

  lemma CrossedClashes(g: string, h: string)
    requires g != h
    ensures var jobs, run := [Job(true, [g, h]), Job(true, [h, g])], CrossedRun(g, h);
            forall n: nat :: 3 <= n < 6 ==> StepsTo(jobs, 2, run[n], run[n + 1])
  {
    var jobs, run := [Job(true, [g, h]), Job(true, [h, g])], CrossedRun(g, h);
    assert StepsTo(jobs, 2, run[3], run[4]) by { assert run[4] == Step(jobs, 2, run[3], 1); }
    assert StepsTo(jobs, 2, run[4], run[5]) by { assert run[5] == Step(jobs, 2, run[4], 1); }
    assert StepsTo(jobs, 2, run[5], run[6]) by { assert run[6] == Step(jobs, 2, run[5], 1); }
  }

  /** Two jobs taking two groups in opposite orders can deadlock on each other. */
  lemma UnsortedGroupsDeadlock(g: string, h: string)
    requires g != h
    ensures var jobs := [Job(true, [g, h]), Job(true, [h, g])];
            exists run: seq<State>, n: nat ::
              IsRun(jobs, 2, run) && n < |run| && Stuck(jobs, 2, run[n]) && !AllFinished(run[n])
  {
    var jobs, run := [Job(true, [g, h]), Job(true, [h, g])], CrossedRun(g, h);
    CrossedTakes(g, h);
    CrossedClashes(g, h);
    assert run[0].pc == Initial(jobs).pc;
    assert IsRun(jobs, 2, run);
    assert run[6].pc[0] == Locking(1) && run[6].pc[1] == Locking(1);
    assert !AllFinished(run[6]) && Stuck(jobs, 2, run[6]);
  }
}
