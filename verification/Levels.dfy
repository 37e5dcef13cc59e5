/** `rollupLevels`: partner levels rolled up from verdicts, and the certified level. */
module Levels {
  import opened Core
  import opened Sorting

  const BELOW: (int, int) -> bool := (a, b) => a < b

  /** The levels that were tested; level 0 means "no level". */
  function Tested(vs: seq<Verdict>): set<int>
  {
    set v | v in vs && v.level != 0 :: v.level
  }

  predicate HasPass(vs: seq<Verdict>, l: int)
  {
    exists v :: v in vs && v.level == l && v.outcome == Pass
  }

  predicate HasFailure(vs: seq<Verdict>, l: int)
  {
    exists v :: v in vs && v.level == l && Failing(v.outcome)
  }

  function LevelOutcome(vs: seq<Verdict>, l: int): Outcome
  {
    if HasFailure(vs, l) then Fail else if HasPass(vs, l) then Pass else Skip
  }

  /** A level that may be certified: tested, passing, and below every tested level that failed. */
  ghost predicate Earned(vs: seq<Verdict>, l: int)
  {
    && l in Tested(vs) && HasPass(vs, l) && !HasFailure(vs, l)
    && forall f :: f in Tested(vs) && HasFailure(vs, f) ==> l < f
  }

  /** What the certified level is: the greatest earned level, or 0 when there is none. */
  ghost predicate IsCertified(vs: seq<Verdict>, c: int)
  {
    if exists l :: Earned(vs, l) then
      Earned(vs, c) && forall l :: Earned(vs, l) ==> l <= c
    else c == 0
  }

  /** The ladder walk over tested levels, smallest first. */
  ghost function Walk(vs: seq<Verdict>, levels: seq<int>, certified: int): int
  {
    if levels == [] then certified
    else if HasFailure(vs, levels[0]) then certified
    else Walk(vs, levels[1..], if HasPass(vs, levels[0]) then levels[0] else certified)
  }

  ghost function Certified(vs: seq<Verdict>): int
  {
    Walk(vs, Listing(BELOW, Tested(vs)), 0)
  }

  ghost function Rollups(vs: seq<Verdict>): seq<LevelRollup>
  {
    var levels := Listing(BELOW, Tested(vs));
    seq(|levels|, i requires 0 <= i < |levels| => LevelRollup(levels[i], LevelOutcome(vs, levels[i])))
  }

  /** What a rollup says about its level. */
  ghost predicate RolledUp(vs: seq<Verdict>, r: LevelRollup)
  {
    && r.outcome in {Pass, Fail, Skip}
    && (r.outcome == Fail <==> exists v :: v in vs && v.level == r.level && v.outcome in {Fail, Error})
    && (r.outcome == Pass ==> exists v :: v in vs && v.level == r.level && v.outcome == Pass)
    && (r.outcome == Skip ==> forall v :: v in vs && v.level == r.level ==> v.outcome != Pass)
  }

  /** What the rollups are: one for every level but 0 that some verdict has, ascending. */
  ghost predicate RollsUp(vs: seq<Verdict>, rollups: seq<LevelRollup>)
  {
    && (forall i, j :: 0 <= i < j < |rollups| ==> rollups[i].level < rollups[j].level)
    && (forall l :: HasRollup(rollups, l) <==> HasVerdict(vs, l))
    && (forall r :: r in rollups ==> RolledUp(vs, r))
  }

  predicate HasRollup(rollups: seq<LevelRollup>, l: int)
  {
    exists r :: r in rollups && r.level == l
  }

  predicate HasVerdict(vs: seq<Verdict>, l: int)
  {
    l != 0 && exists v :: v in vs && v.level == l
  }

  lemma RollupsMeetSpec(vs: seq<Verdict>)
    ensures RollsUp(vs, Rollups(vs))
  {
    var levels, rollups := Listing(BELOW, Tested(vs)), Rollups(vs);
    forall i, j | 0 <= i < j < |rollups| ensures rollups[i].level < rollups[j].level {
      assert BELOW(levels[i], levels[j]);
    }
    forall r | r in rollups ensures r.level in Tested(vs) && RolledUp(vs, r) {
      var i :| 0 <= i < |rollups| && rollups[i] == r;
      assert levels[i] in levels;
      LevelOutcomeMeans(vs, levels[i]);
    }
    forall l | HasVerdict(vs, l) ensures HasRollup(rollups, l) {
      assert l in Tested(vs) && l in levels;
      var i :| 0 <= i < |levels| && levels[i] == l;
      assert rollups[i] in rollups;
    }
  }

  lemma LevelOutcomeMeans(vs: seq<Verdict>, l: int)
    ensures RolledUp(vs, LevelRollup(l, LevelOutcome(vs, l)))
  {
  }

  /** The levels the walk sees before the first failure. */
  ghost function Climbed(vs: seq<Verdict>, levels: seq<int>): seq<int>
  {
    if levels == [] || HasFailure(vs, levels[0]) then []
    else [levels[0]] + Climbed(vs, levels[1..])
  }

  lemma {:induction false} WalkFindsLast(vs: seq<Verdict>, levels: seq<int>, c: int)
    requires forall i, j :: 0 <= i < j < |levels| ==> levels[i] < levels[j]
    ensures var r, up := Walk(vs, levels, c), Climbed(vs, levels);
            && (forall l :: l in up ==> l in levels && !HasFailure(vs, l))
            && (forall l :: l in up && HasPass(vs, l) ==> l <= r)
            && (r == c || (r in up && HasPass(vs, r)))
            && (r == c ==> c in up || forall l :: l in up ==> !HasPass(vs, l))
  {
    if levels != [] && !HasFailure(vs, levels[0]) {
      WalkFindsLast(vs, levels[1..], if HasPass(vs, levels[0]) then levels[0] else c);
      assert forall l :: l in levels[1..] ==> levels[0] < l;
    }
  }

  lemma {:induction false} ClimbedIsBelowFailures(vs: seq<Verdict>, levels: seq<int>, l: int)
    requires forall i, j :: 0 <= i < j < |levels| ==> levels[i] < levels[j]
    ensures l in Climbed(vs, levels) <==>
            l in levels && !HasFailure(vs, l) && forall f :: f in levels && HasFailure(vs, f) ==> l < f
  {
    if levels != [] {
      var rest := levels[1..];
      assert levels == [levels[0]] + rest;
      assert forall k :: k in rest ==> levels[0] < k;
      ClimbedIsBelowFailures(vs, rest, l);
    }
  }

  /** The certified level meets its declarative meaning. */
  lemma CertifiedMeetsSpec(vs: seq<Verdict>)
    ensures IsCertified(vs, Certified(vs))
  {
    var levels := Listing(BELOW, Tested(vs));
    assert forall i, j :: 0 <= i < j < |levels| ==> BELOW(levels[i], levels[j]);
    WalkFindsLast(vs, levels, 0);
    forall l ensures Earned(vs, l) <==> l in Climbed(vs, levels) && HasPass(vs, l) {
      ClimbedIsBelowFailures(vs, levels, l);
    }
  }

  lemma AccumulateOne(vs: seq<Verdict>, v: Verdict)
    ensures Tested(vs + [v]) == Tested(vs) + if v.level == 0 then {} else {v.level}
    ensures forall l :: HasPass(vs + [v], l) <==> HasPass(vs, l) || (l == v.level && v.outcome == Pass)
    ensures forall l :: HasFailure(vs + [v], l) <==> HasFailure(vs, l) || (l == v.level && Failing(v.outcome))
    ensures v.level !in Tested(vs) && v.level != 0 ==> !HasPass(vs, v.level) && !HasFailure(vs, v.level)
  {
    var ws := vs + [v];
    assert v in ws;
    assert forall w :: w in vs ==> w in ws;
  }

  lemma SameOutcomes(vs: seq<Verdict>, ws: seq<Verdict>, l: int)
    requires forall v :: v in vs <==> v in ws
    ensures HasPass(vs, l) == HasPass(ws, l) && HasFailure(vs, l) == HasFailure(ws, l)
  {
  }

  lemma {:induction false} SameWalk(vs: seq<Verdict>, ws: seq<Verdict>, levels: seq<int>, c: int)
    requires forall v :: v in vs <==> v in ws
    ensures Walk(vs, levels, c) == Walk(ws, levels, c)
  {
    if levels != [] {
      SameOutcomes(vs, ws, levels[0]);
      SameWalk(vs, ws, levels[1..], if HasPass(vs, levels[0]) then levels[0] else c);
    }
  }

  /** Verdict order is irrelevant, for the certified level and for the rollups. */
  lemma OrderIrrelevant(vs: seq<Verdict>, ws: seq<Verdict>)
    requires forall v :: v in vs <==> v in ws
    ensures Certified(vs) == Certified(ws) && Rollups(vs) == Rollups(ws)
  {
    assert Tested(vs) == Tested(ws);
    var levels := Listing(BELOW, Tested(vs));
    SameWalk(vs, ws, levels, 0);
    forall i | 0 <= i < |levels| ensures LevelOutcome(vs, levels[i]) == LevelOutcome(ws, levels[i]) {
      SameOutcomes(vs, ws, levels[i]);
    }
  }

  /** Adding a fail or error verdict never raises the certified level (levels are positive). */
  lemma FailureNeverRaises(vs: seq<Verdict>, v: Verdict)
    requires Failing(v.outcome)
    requires forall w :: w in vs ==> w.level >= 0
    ensures Certified(vs + [v]) <= Certified(vs)
  {
    var ws := vs + [v];
    assert Tested(vs) <= Tested(ws);
    CertifiedMeetsSpec(vs);
    CertifiedMeetsSpec(ws);
    AccumulateOne(vs, v);
    forall l | Earned(ws, l) ensures Earned(vs, l) {
      assert forall f :: f in Tested(vs) && HasFailure(vs, f) ==> f in Tested(ws) && HasFailure(ws, f);
    }
    CertifiedNonNegative(vs);
  }

  lemma CertifiedNonNegative(vs: seq<Verdict>)
    requires forall w :: w in vs ==> w.level >= 0
    ensures Certified(vs) >= 0
  {
    CertifiedMeetsSpec(vs);
    if exists l :: Earned(vs, l) {
      assert Certified(vs) in Tested(vs);
    }
  }

  lemma PassKeepsFailures(vs: seq<Verdict>, v: Verdict)
    requires v.outcome == Pass
    ensures forall f :: f in Tested(vs + [v]) && HasFailure(vs + [v], f) ==> f in Tested(vs) && HasFailure(vs, f)
  {
    AccumulateOne(vs, v);
    forall f | f in Tested(vs + [v]) && HasFailure(vs + [v], f) ensures f in Tested(vs) {
      var w :| w in vs && w.level == f && Failing(w.outcome);
    }
  }

  lemma PassKeepsEarned(vs: seq<Verdict>, v: Verdict, l: int)
    requires v.outcome == Pass && Earned(vs, l)
    ensures Earned(vs + [v], l)
  {
    AccumulateOne(vs, v);
    PassKeepsFailures(vs, v);
  }

  /** Adding a pass verdict never lowers the certified level (levels are positive). */
  lemma PassNeverLowers(vs: seq<Verdict>, v: Verdict)
    requires v.outcome == Pass && v.level >= 0
    requires forall w :: w in vs ==> w.level >= 0
    ensures Certified(vs + [v]) >= Certified(vs)
  {
    var ws := vs + [v];
    CertifiedMeetsSpec(vs);
    CertifiedMeetsSpec(ws);
    if exists l :: Earned(vs, l) {
      PassKeepsEarned(vs, v, Certified(vs));
    } else {
      CertifiedNonNegative(ws);
    }
  }

  /** Below zero the walk still finds the greatest earned level, but then a pass can lower it. */
  lemma NegativeLevelLowers(v: Verdict)
    requires v.outcome == Pass && v.level < 0
    ensures Certified([]) == 0 && Certified([v]) == v.level
  {
    CertifiedMeetsSpec([]);
    CertifiedMeetsSpec([v]);
    assert v in [v];
    assert Earned([v], v.level);
  }

  datatype Acc = Acc(pass: bool, failErr: bool)

  /** `per` records which tested levels hold a pass and which a failure. */
  ghost predicate Accumulated(vs: seq<Verdict>, per: map<int, Acc>)
  {
    per.Keys == Tested(vs) && forall l :: l in per ==> per[l] == Acc(HasPass(vs, l), HasFailure(vs, l))
  }

  method Accumulate(vs: seq<Verdict>) returns (per: map<int, Acc>)
    ensures Accumulated(vs, per)
  {
    per := map[];
    for i := 0 to |vs|
      invariant Accumulated(vs[..i], per)
    {
      var v := vs[i];
      AccumulateOne(vs[..i], v);
      assert vs[..i + 1] == vs[..i] + [v];
      if v.level != 0 {
        var a := if v.level in per then per[v.level] else Acc(false, false);
        per := per[v.level := Acc(a.pass || v.outcome == Pass, a.failErr || Failing(v.outcome))];
      }
    }
    assert vs[..|vs|] == vs;
  }

  method Climb(ghost vs: seq<Verdict>, per: map<int, Acc>, levels: seq<int>) returns (certified: int)
    requires Accumulated(vs, per) && forall l :: l in levels ==> l in per
    ensures certified == Walk(vs, levels, 0)
  {
    certified := 0;
    for i := 0 to |levels|
      invariant Walk(vs, levels[i..], certified) == Walk(vs, levels, 0)
    {
      var l := levels[i];
      assert levels[i..][0] == l && levels[i..][1..] == levels[i + 1..] && l in levels;
      if per[l].failErr {
        return;
      } else if per[l].pass {
        certified := l;
      }
    }
  }

  method ListOutcomes(ghost vs: seq<Verdict>, per: map<int, Acc>, levels: seq<int>) returns (out: seq<LevelRollup>)
    requires Accumulated(vs, per) && forall l :: l in levels ==> l in per
    ensures |out| == |levels|
    ensures forall k :: 0 <= k < |levels| ==> out[k] == LevelRollup(levels[k], LevelOutcome(vs, levels[k]))
  {
    out := [];
    for i := 0 to |levels|
      invariant |out| == i
      invariant forall k :: 0 <= k < i ==> out[k] == LevelRollup(levels[k], LevelOutcome(vs, levels[k]))
    {
      var l := levels[i];
      assert l in levels;
      out := out + [LevelRollup(l, if per[l].failErr then Fail else if per[l].pass then Pass else Skip)];
    }
  }

  /** `rollupLevels`: accumulate per level, sort the levels, list their outcomes and walk them. */
  method RollupLevels(vs: seq<Verdict>) returns (rollups: seq<LevelRollup>, certified: int)
    ensures rollups == Rollups(vs)
    ensures certified == Certified(vs)
  {
    var per := Accumulate(vs);
    var levels := AscendingOrder(BELOW, per.Keys);
    rollups := ListOutcomes(vs, per, levels);
    certified := Climb(vs, per, levels);
  }
}
