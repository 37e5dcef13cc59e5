/**
 The progress tracker together with the execution records its callback writes. A transition and
 its callback are one step here. Every method appends its event to a ghost history, and the
 tracker's contents are always that history replayed.
 */
module Progress {
  import opened Core

  datatype Phase = Waiting | Active | Done | Cut

  datatype Event =
    | Started(name: string)
    | Ended(name: string, outcome: Outcome)     // complete
    | Dropped(name: string, outcome: Outcome)   // abort
    | SetUp(index: nat, ok: bool)                // a shared setup was tried
    | TornDown(index: nat)

  datatype Board = Board(
    phases: map<string, Phase>,
    outcomes: map<string, Outcome>,
    executions: map<string, RunExecution>)

  const NO_OUTCOME: Outcome := OtherOutcome("")
  const BLANK := RunExecution("", "", "", Queued, NO_OUTCOME, "")
  const CUT_SHORT := "run ended before execution completed"

  /** A missing key reads as Go's zero value. */
  function PhaseOf(b: Board, name: string): Phase
  {
    if name in b.phases then b.phases[name] else Waiting
  }

  function ExecutionOf(b: Board, name: string): RunExecution
  {
    if name in b.executions then b.executions[name] else BLANK
  }

  function Apply(b: Board, e: Event): Board
  {
    match e
    case Started(l) =>
      if PhaseOf(b, l) != Waiting then b
      else Board(b.phases[l := Active], b.outcomes, b.executions[l := ExecutionOf(b, l).(state := InProgress)])
    case Ended(l, o) =>
      if PhaseOf(b, l) == Done then b
      else Board(b.phases[l := Done], b.outcomes[l := o],
                 b.executions[l := ExecutionOf(b, l).(state := Completed, outcome := o)])
    case Dropped(l, o) =>
      if PhaseOf(b, l) == Done || PhaseOf(b, l) == Cut then b
      else Board(b.phases[l := Cut], b.outcomes[l := o],
                 b.executions[l := ExecutionOf(b, l).(state := Aborted, outcome := o, reason := CUT_SHORT)])
    case _ => b
  }

  function Play(b: Board, es: seq<Event>): Board
  {
    if es == [] then b else Apply(Play(b, es[..|es| - 1]), es[|es| - 1])
  }

  lemma PlaySnoc(b: Board, es: seq<Event>, e: Event)
    ensures Play(b, es + [e]) == Apply(Play(b, es), e)
  {
    assert (es + [e])[..|es|] == es;
  }

  // ---- what a history leaves behind ---------------------------------------------------

  ghost predicate EndsIn(es: seq<Event>, name: string)
  {
    exists e :: e in es && e.Ended? && e.name == name
  }

  ghost predicate DropsIn(es: seq<Event>, name: string)
  {
    exists e :: e in es && e.Dropped? && e.name == name
  }

  ghost predicate StartsIn(es: seq<Event>, name: string)
  {
    exists e :: e in es && e.Started? && e.name == name
  }

  ghost predicate SettledIn(es: seq<Event>, name: string)
  {
    EndsIn(es, name) || DropsIn(es, name)
  }

  /** Whatever the order of the events: one completion is decisive, then one abort, then one start. */
  lemma {:induction false} HistoryDecides(b: Board, es: seq<Event>, name: string)
    requires PhaseOf(b, name) == Waiting
    ensures PhaseOf(Play(b, es), name)
         == if EndsIn(es, name) then Done
            else if DropsIn(es, name) then Cut
            else if StartsIn(es, name) then Active
            else Waiting
  {
    if es != [] {
      var init, last := es[..|es| - 1], es[|es| - 1];
      assert es == init + [last];
      HistoryDecides(b, init, name);
      assert EndsIn(es, name) <==> EndsIn(init, name) || (last.Ended? && last.name == name);
      assert DropsIn(es, name) <==> DropsIn(init, name) || (last.Dropped? && last.name == name);
      assert StartsIn(es, name) <==> StartsIn(init, name) || (last.Started? && last.name == name);
    }
  }

  /** Completed is never left: neither the phase nor the recorded outcome nor the execution changes again. */
  lemma {:induction false} CompletedIsFinal(b: Board, es: seq<Event>, name: string)
    requires PhaseOf(b, name) == Done
    ensures PhaseOf(Play(b, es), name) == Done
    ensures ExecutionOf(Play(b, es), name) == ExecutionOf(b, name)
    ensures name in b.outcomes ==>
              name in Play(b, es).outcomes && Play(b, es).outcomes[name] == b.outcomes[name]
  {
    if es != [] {
      CompletedIsFinal(b, es[..|es| - 1], name);
    }
  }

  // ---- what it leaves in the record ----------------------------------------------------

  /** The first completion of this name. */
  ghost predicate FirstEnd(es: seq<Event>, n: nat, name: string)
  {
    && n < |es| && es[n].Ended? && es[n].name == name
    && forall i :: 0 <= i < n && es[i].Ended? ==> es[i].name != name
  }

  /** The first abort of this name. */
  ghost predicate FirstDrop(es: seq<Event>, n: nat, name: string)
  {
    && n < |es| && es[n].Dropped? && es[n].name == name
    && forall i :: 0 <= i < n && es[i].Dropped? ==> es[i].name != name
  }

  lemma {:induction false} FirstEndExists(es: seq<Event>, name: string) returns (n: nat)
    requires EndsIn(es, name)
    ensures FirstEnd(es, n, name)
  {
    var init, last := es[..|es| - 1], es[|es| - 1];
    assert es == init + [last];
    if EndsIn(init, name) {
      n := FirstEndExists(init, name);
    } else {
      n := |init|;
    }
  }

  lemma {:induction false} FirstDropExists(es: seq<Event>, name: string) returns (n: nat)
    requires DropsIn(es, name)
    ensures FirstDrop(es, n, name)
  {
    var init, last := es[..|es| - 1], es[|es| - 1];
    assert es == init + [last];
    if DropsIn(init, name) {
      n := FirstDropExists(init, name);
    } else {
      n := |init|;
    }
  }

  lemma {:induction false} PlayConcat(b: Board, es: seq<Event>, more: seq<Event>)
    ensures Play(b, es + more) == Play(Play(b, es), more)
  {
    if more == [] {
      assert es + more == es;
    } else {
      PlayConcat(b, es, more[..|more| - 1]);
      assert (es + more)[..|es + more| - 1] == es + more[..|more| - 1];
    }
  }

  lemma ApplyKeeps(b: Board, e: Event, name: string)
    ensures var before, after := ExecutionOf(b, name), ExecutionOf(Apply(b, e), name);
            && after.tr == before.tr && after.variant == before.variant && after.scenario == before.scenario
            && (!((e.Ended? || e.Dropped?) && e.name == name) ==> after.outcome == before.outcome && after.reason == before.reason)
  {
  }

  /** Whose record it is never changes, and without a settlement neither do outcome and reason. */
  lemma {:induction false} UnsettledRecord(b: Board, es: seq<Event>, name: string)
    requires PhaseOf(b, name) == Waiting
    ensures var before, after := ExecutionOf(b, name), ExecutionOf(Play(b, es), name);
            && after.tr == before.tr && after.variant == before.variant && after.scenario == before.scenario
            && (!SettledIn(es, name) ==> after.outcome == before.outcome && after.reason == before.reason)
  {
    if es != [] {
      var init, last := es[..|es| - 1], es[|es| - 1];
      assert es == init + [last];
      UnsettledRecord(b, init, name);
      ApplyKeeps(Play(b, init), last, name);
      assert SettledIn(init, name) ==> SettledIn(es, name);
      assert last in es;
    }
  }

  /** Without any settlement the state is that of the start, if there was one. */
  lemma {:induction false} UntouchedState(b: Board, es: seq<Event>, name: string)
    requires PhaseOf(b, name) == Waiting && !SettledIn(es, name)
    ensures ExecutionOf(Play(b, es), name).state
         == if StartsIn(es, name) then InProgress else ExecutionOf(b, name).state
  {
    if es != [] {
      var init, last := es[..|es| - 1], es[|es| - 1];
      assert es == init + [last];
      UntouchedState(b, init, name);
      HistoryDecides(b, init, name);
      assert StartsIn(es, name) <==> StartsIn(init, name) || (last.Started? && last.name == name);
    }
  }

  lemma {:induction false} AbortedStays(b: Board, es: seq<Event>, name: string)
    requires PhaseOf(b, name) == Cut && !EndsIn(es, name)
    ensures PhaseOf(Play(b, es), name) == Cut && ExecutionOf(Play(b, es), name) == ExecutionOf(b, name)
  {
    if es != [] {
      var init, last := es[..|es| - 1], es[|es| - 1];
      assert es == init + [last];
      AbortedStays(b, init, name);
    }
  }

  /** An execution that was aborted and never completed has the outcome of its first abort. */
  lemma FirstAbortDecides(b: Board, es: seq<Event>, name: string, n: nat)
    requires PhaseOf(b, name) == Waiting && !EndsIn(es, name) && FirstDrop(es, n, name)
    ensures var e := ExecutionOf(Play(b, es), name);
            e.state == Aborted && e.outcome == es[n].outcome && e.reason == "run ended before execution completed"
  {
    var init, rest := es[..n], es[n + 1..];
    assert es == (init + [es[n]]) + rest;
    HistoryDecides(b, init, name);
    PlaySnoc(b, init, es[n]);
    PlayConcat(b, init + [es[n]], rest);
    AbortedStays(Play(b, init + [es[n]]), rest, name);
  }

  /** An execution that was ever completed has the outcome of its first completion, whatever else happened. */
  lemma FirstCompletionDecides(b: Board, es: seq<Event>, name: string, n: nat)
    requires PhaseOf(b, name) == Waiting && FirstEnd(es, n, name)
    ensures var e := ExecutionOf(Play(b, es), name);
            && e.state == Completed && e.outcome == es[n].outcome
            && e.reason == (if DropsIn(es[..n], name) then "run ended before execution completed"
                            else ExecutionOf(b, name).reason)
    ensures name in Play(b, es).outcomes && Play(b, es).outcomes[name] == es[n].outcome
  {
    var init, rest := es[..n], es[n + 1..];
    assert es == (init + [es[n]]) + rest;
    HistoryDecides(b, init, name);
    UnsettledRecord(b, init, name);
    if DropsIn(init, name) {
      var m := FirstDropExists(init, name);
      FirstAbortDecides(b, init, name, m);
    }
    PlaySnoc(b, init, es[n]);
    PlayConcat(b, init + [es[n]], rest);
    CompletedIsFinal(Play(b, init + [es[n]]), rest, name);
  }

  /** The execution records say what the tracker says. */
  ghost predicate Agree(b: Board)
  {
    && b.phases.Keys == b.executions.Keys
    && forall l :: l in b.phases ==> StateFor(b.phases[l]) == b.executions[l].state
  }

  function StateFor(phase: Phase): ExecutionState
  {
    match phase
    case Waiting => Queued
    case Active => InProgress
    case Done => Completed
    case Cut => Aborted
  }

  lemma {:induction false} AlwaysAgree(b: Board, es: seq<Event>)
    requires Agree(b)
    ensures Agree(Play(b, es))
  {
    if es != [] {
      AlwaysAgree(b, es[..|es| - 1]);
    }
  }

  predicate IsStep(e: Event)
  {
    e.Started? || e.Ended? || e.Dropped?
  }

  lemma {:induction false} KeysPlayed(b: Board, es: seq<Event>)
    requires forall e :: e in es && IsStep(e) ==> e.name in b.phases
    ensures Play(b, es).phases.Keys == b.phases.Keys
  {
    if es != [] {
      KeysPlayed(b, es[..|es| - 1]);
      assert es[|es| - 1] in es;
    }
  }

  // ---- the tracker ----------------------------------------------------------------------

  function Labels(trs: seq<Requirement>): set<string>
  {
    set tr | tr in trs :: Label(tr)
  }

  /** The tracker before the run: every selected label is waiting. */
  function Fresh(selected: seq<Requirement>, scenario: string): Board
  {
    if selected == [] then Board(map[], map[], map[])
    else
      var before, tr := Fresh(selected[..|selected| - 1], scenario), selected[|selected| - 1];
      Board(before.phases[Label(tr) := Waiting], map[],
            before.executions[Label(tr) := RunExecution(tr.id, tr.variant, scenario, Queued, NO_OUTCOME, "")])
  }

  lemma {:induction false} FreshKeys(selected: seq<Requirement>, scenario: string)
    ensures var b := Fresh(selected, scenario);
            b.phases.Keys == Labels(selected) && b.executions.Keys == Labels(selected)
  {
    if selected != [] {
      var init, last := selected[..|selected| - 1], selected[|selected| - 1];
      assert selected == init + [last];
      FreshKeys(init, scenario);
      assert Labels(selected) == Labels(init) + {Label(last)};
    }
  }

  lemma {:induction false} FreshIsQueued(selected: seq<Requirement>, scenario: string, name: string)
    ensures var b := Fresh(selected, scenario);
            PhaseOf(b, name) == Waiting && ExecutionOf(b, name).state == Queued
  {
    if selected != [] {
      FreshIsQueued(selected[..|selected| - 1], scenario, name);
    }
  }

  /** A fresh record names an execution of its label, in the scenario of the run. */
  lemma {:induction false} FreshIsNamed(selected: seq<Requirement>, scenario: string, name: string)
    requires name in Labels(selected)
    ensures var e := ExecutionOf(Fresh(selected, scenario), name);
            && (exists tr :: tr in selected && Label(tr) == name && e.tr == tr.id && e.variant == tr.variant)
            && e.scenario == scenario && e.outcome == OtherOutcome("") && e.reason == ""
  {
    var init, last := selected[..|selected| - 1], selected[|selected| - 1];
    assert selected == init + [last];
    if Label(last) != name {
      FreshIsNamed(init, scenario, name);
      FreshKeys(init, scenario);
    }
  }

  lemma FreshAgrees(selected: seq<Requirement>, scenario: string)
    ensures Agree(Fresh(selected, scenario))
  {
    var b := Fresh(selected, scenario);
    FreshKeys(selected, scenario);
    forall l | l in b.phases ensures StateFor(b.phases[l]) == b.executions[l].state {
      FreshIsQueued(selected, scenario, l);
    }
  }

  class Tracker {
    var phases: map<string, Phase>
    var outcomes: map<string, Outcome>
    var executions: map<string, RunExecution>
    ghost const first: Board
    ghost var events: seq<Event>

    function Contents(): Board
      reads this
    {
      Board(phases, outcomes, executions)
    }

    ghost predicate Valid()
      reads this
    {
      Contents() == Play(first, events)
    }

    constructor (selected: seq<Requirement>, scenario: string)
      ensures Valid() && events == [] && first == Fresh(selected, scenario)
    {
      phases, outcomes, executions := map[], map[], map[];
      first := Fresh(selected, scenario);
      events := [];
      new;
      for n := 0 to |selected|
        invariant events == [] && first == Fresh(selected, scenario)
        invariant Contents() == Fresh(selected[..n], scenario)
      {
        var tr := selected[n];
        assert selected[..n + 1][..n] == selected[..n];
        phases := phases[Label(tr) := Waiting];
        executions := executions[Label(tr) := RunExecution(tr.id, tr.variant, scenario, Queued, NO_OUTCOME, "")];
      }
      assert selected[..|selected|] == selected;
    }

    method Start(tr: Requirement)
      requires Valid()
      modifies this
      ensures Valid() && events == old(events) + [Started(Label(tr))]
      ensures Contents() == Apply(old(Contents()), Started(Label(tr)))
      ensures PhaseOf(old(Contents()), Label(tr)) != Waiting ==> Contents() == old(Contents())
      ensures PhaseOf(old(Contents()), Label(tr)) == Waiting ==>
                && phases == old(phases)[Label(tr) := Active] && outcomes == old(outcomes)
                && executions == old(executions)[Label(tr) := ExecutionOf(old(Contents()), Label(tr)).(state := InProgress)]
    {
      var name := Label(tr);
      PlaySnoc(first, events, Started(name));
      events := events + [Started(name)];
      if PhaseOf(Contents(), name) != Waiting {
        return;
      }
      phases := phases[name := Active];
      var execution := ExecutionOf(Contents(), name);
      executions := executions[name := execution.(state := InProgress)];
    }

    method Complete(tr: Requirement, outcome: Outcome)
      requires Valid()
      modifies this
      ensures Valid() && events == old(events) + [Ended(Label(tr), outcome)]
      ensures Contents() == Apply(old(Contents()), Ended(Label(tr), outcome))
      ensures PhaseOf(old(Contents()), Label(tr)) == Done ==> Contents() == old(Contents())
      ensures PhaseOf(old(Contents()), Label(tr)) != Done ==>
                && phases == old(phases)[Label(tr) := Done] && outcomes == old(outcomes)[Label(tr) := outcome]
                && executions == old(executions)[Label(tr) := ExecutionOf(old(Contents()), Label(tr)).(
                                                                state := Completed, outcome := outcome)]
    {
      var name := Label(tr);
      PlaySnoc(first, events, Ended(name, outcome));
      events := events + [Ended(name, outcome)];
      if PhaseOf(Contents(), name) == Done {
        return;
      }
      phases := phases[name := Done];
      outcomes := outcomes[name := outcome];
      var execution := ExecutionOf(Contents(), name);
      executions := executions[name := execution.(state := Completed, outcome := outcome)];
    }

    method Abort(tr: Requirement, outcome: Outcome)
      requires Valid()
      modifies this
      ensures Valid() && events == old(events) + [Dropped(Label(tr), outcome)]
      ensures Contents() == Apply(old(Contents()), Dropped(Label(tr), outcome))
      ensures PhaseOf(old(Contents()), Label(tr)) in {Done, Cut} ==> Contents() == old(Contents())
      ensures PhaseOf(old(Contents()), Label(tr)) !in {Done, Cut} ==>
                && phases == old(phases)[Label(tr) := Cut] && outcomes == old(outcomes)[Label(tr) := outcome]
                && executions == old(executions)[Label(tr) := ExecutionOf(old(Contents()), Label(tr)).(
                                                                state := Aborted, outcome := outcome, reason := CUT_SHORT)]
    {
      var name := Label(tr);
      PlaySnoc(first, events, Dropped(name, outcome));
      events := events + [Dropped(name, outcome)];
      if PhaseOf(Contents(), name) == Done || PhaseOf(Contents(), name) == Cut {
        return;
      }
      phases := phases[name := Cut];
      outcomes := outcomes[name := outcome];
      var execution := ExecutionOf(Contents(), name);
      executions := executions[name := execution.(state := Aborted, outcome := outcome, reason := CUT_SHORT)];
    }

    /** A setup or teardown: nothing but the history changes. */
    ghost method Note(e: Event)
      requires Valid() && (e.SetUp? || e.TornDown?)
      modifies this`events
      ensures Valid() && events == old(events) + [e]
    {
      PlaySnoc(first, events, e);
      events := events + [e];
    }

    method CountDone(order: seq<string>) returns (completed: nat)
      ensures completed <= |order|
      ensures completed == |order| <==> forall l :: l in order ==> PhaseOf(Contents(), l) == Done
    {
      completed := 0;
      for n := 0 to |order|
        invariant completed <= n
        invariant completed == n <==> forall l :: l in order[..n] ==> PhaseOf(Contents(), l) == Done
      {
        assert order[..n + 1] == order[..n] + [order[n]];
        if PhaseOf(Contents(), order[n]) == Done {
          completed := completed + 1;
        }
      }
      assert order[..|order|] == order;
    }
  }

  // ---- the outcome of one execution -----------------------------------------------------

  function Rank(o: Outcome): nat
  {
    match o
    case Error => 3
    case Fail => 2
    case Pass => 1
    case _ => 0
  }

  predicate Concerns(v: Verdict, tr: Requirement)
  {
    v.tr == tr.id && v.variant == tr.variant
  }

  ghost predicate Yields(vs: seq<Verdict>, tr: Requirement, o: Outcome)
  {
    exists v :: v in vs && Concerns(v, tr) && v.outcome == o
  }

  /** Errors win over failures, failures over passes; nothing graded is an error, only skips a skip. */
  ghost function Overall(vs: seq<Verdict>, tr: Requirement): Outcome
  {
    if Yields(vs, tr, Error) || !exists v :: v in vs && Concerns(v, tr) then Error
    else if Yields(vs, tr, Fail) then Fail
    else if Yields(vs, tr, Pass) then Pass
    else Skip
  }

  /** What the outcome of an execution says about the verdicts that name its requirement and variant. */
  ghost predicate Reckons(vs: seq<Verdict>, tr: Requirement, o: Outcome)
  {
    && o in {Error, Fail, Pass, Skip}
    && (o == Error <==> HasOutcome(vs, tr, Error) || forall v :: v in vs && v.tr == tr.id ==> v.variant != tr.variant)
    && (o == Fail <==> HasOutcome(vs, tr, Fail) && !HasOutcome(vs, tr, Error))
    && (o == Pass <==> HasOutcome(vs, tr, Pass) && !HasOutcome(vs, tr, Fail) && !HasOutcome(vs, tr, Error))
  }

  ghost predicate HasOutcome(vs: seq<Verdict>, tr: Requirement, o: Outcome)
  {
    exists v :: v in vs && v.tr == tr.id && v.variant == tr.variant && v.outcome == o
  }

  lemma OverallReckons(vs: seq<Verdict>, tr: Requirement)
    ensures Reckons(vs, tr, Overall(vs, tr))
  {
    assert forall o :: HasOutcome(vs, tr, o) <==> Yields(vs, tr, o);
    assert forall v :: v in vs ==> (Concerns(v, tr) <==> v.tr == tr.id && v.variant == tr.variant);
  }

  method SummarizeTR(vs: seq<Verdict>, tr: Requirement) returns (best: Outcome)
    ensures best == Overall(vs, tr)
    ensures Reckons(vs, tr, best)
  {
    best := Skip;
    var seen := false;
    for n := 0 to |vs|
      invariant best in {Error, Fail, Pass, Skip}
      invariant seen <==> exists v :: v in vs[..n] && Concerns(v, tr)
      invariant best == Error <==> Yields(vs[..n], tr, Error)
      invariant best == Fail <==> Yields(vs[..n], tr, Fail) && !Yields(vs[..n], tr, Error)
      invariant best == Pass <==> Yields(vs[..n], tr, Pass) && !Yields(vs[..n], tr, Fail) && !Yields(vs[..n], tr, Error)
    {
      assert vs[..n + 1] == vs[..n] + [vs[n]];
      forall o: Outcome
        ensures Yields(vs[..n + 1], tr, o) <==> Yields(vs[..n], tr, o) || (Concerns(vs[n], tr) && vs[n].outcome == o)
      {
      }
      if Concerns(vs[n], tr) {
        seen := true;
        if Rank(vs[n].outcome) > Rank(best) {
          best := vs[n].outcome;
        }
      }
    }
    assert vs[..|vs|] == vs;
    if !seen {
      best := Error;
    }
    OverallReckons(vs, tr);
  }
}
