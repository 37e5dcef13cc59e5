/** `internal/grader` and the error verdicts of the orchestrator: one verdict per scorable item. */
module Grading {
  import opened Core
  import opened Filtering
  import opened Keyed
  import opened Reports
  import opened ReportLaws

  datatype TestResult = TestResult(metrics: seq<Metric>, checks: map<string, Outcome>)

  /** A known unit: its factor to the base unit of its dimension. */
  datatype UnitScale = UnitScale(factor: real, dimension: string)

  type Units = string -> Option<UnitScale>

  // ---- bar selection ----------------------------------------------------------

  /** `a` is the bar's value, `b` the run's: a number accepts only equal numbers, anything else equal text. */
  predicate ParamEqual(a: Param, b: Param)
  {
    match a
    case Number(x, _) => b.Number? && x == b.value
    case Text(t) => t == b.text
  }

  predicate WhenSubset(when: map<string, Param>, params: map<string, Param>)
  {
    forall k :: k in when ==> k in params && ParamEqual(when[k], params[k])
  }

  function Selects(metric: string, percentile: string, params: map<string, Param>): Sla -> bool
  {
    (bar: Sla) => bar.metric == metric && bar.percentile == percentile && WhenSubset(bar.when, params)
  }

  method SelectBars(bars: seq<Sla>, metric: string, percentile: string, params: map<string, Param>)
    returns (out: seq<Sla>)
    ensures out == Filter(Selects(metric, percentile, params), bars)
  {
    out := [];
    for i := 0 to |bars|
      invariant out == Filter(Selects(metric, percentile, params), bars[..i])
    {
      assert bars[..i + 1] == bars[..i] + [bars[i]];
      FilterSnoc(Selects(metric, percentile, params), bars[..i], bars[i]);
      if bars[i].metric != metric || bars[i].percentile != percentile {
        continue;
      }
      if WhenSubset(bars[i].when, params) {
        out := out + [bars[i]];
      }
    }
    assert bars[..|bars|] == bars;
  }

  /** Whether a number can print as a text. What prints how is the formatter's business. */
  type Printing = (real, string) -> bool

  const ANY_PRINTING: Printing := (x, t) => true

  predicate Printed(prints: Printing, params: map<string, Param>)
  {
    forall k :: k in params && params[k].Number? ==> prints(params[k].value, params[k].text)
  }

  /** No run value is accepted for both: different numbers, different texts, or a number that never prints so. */
  predicate Clash(prints: Printing, a: Param, b: Param)
  {
    match (a, b)
    case (Number(x, _), Number(y, _)) => x != y
    case (Text(s), Text(t)) => s != t
    case (Number(x, _), Text(t)) => !prints(x, t)
    case (Text(t), Number(x, _)) => !prints(x, t)
  }

  predicate ConditionsClash(prints: Printing, a: map<string, Param>, b: map<string, Param>)
  {
    exists k :: k in a && k in b && Clash(prints, a[k], b[k])
  }

  predicate SameTarget(a: Sla, b: Sla)
  {
    a.metric == b.metric && a.percentile == b.percentile
  }

  predicate DisjointFor(prints: Printing, bars: seq<Sla>)
  {
    forall i, j :: 0 <= i < j < |bars| && SameTarget(bars[i], bars[j])
      ==> ConditionsClash(prints, bars[i].when, bars[j].when)
  }

  /** Disjoint however numbers print: only two different numbers or two different texts count as a clash. */
  predicate Disjoint(bars: seq<Sla>)
  {
    DisjointFor(ANY_PRINTING, bars)
  }

  /** A value both `a` and `b` accept, when they do not clash. */
  function Accepted(prints: Printing, a: Param, b: Param): (p: Param)
    ensures !Clash(prints, a, b) ==> ParamEqual(a, p) && ParamEqual(b, p)
    ensures p.Number? && !Clash(prints, a, b) ==> prints(p.value, p.text) || p == a
  {
    if a.Number? && b.Text? then Number(a.value, b.text)
    else if a.Text? && b.Number? then Number(b.value, a.text)
    else a
  }

  function BothConditions(prints: Printing, a: map<string, Param>, b: map<string, Param>): map<string, Param>
  {
    map k | k in a.Keys + b.Keys ::
      if k !in b then a[k] else if k !in a then b[k] else Accepted(prints, a[k], b[k])
  }

  lemma ClashExcludes(prints: Printing, a: map<string, Param>, b: map<string, Param>)
    requires Printed(prints, a) && Printed(prints, b)
    ensures ConditionsClash(prints, a, b)
       <==> forall params :: Printed(prints, params) ==> !(WhenSubset(a, params) && WhenSubset(b, params))
  {
    if !ConditionsClash(prints, a, b) {
      var params := BothConditions(prints, a, b);
      forall k | k in a ensures ParamEqual(a[k], params[k]) {
        assert k in b ==> !Clash(prints, a[k], b[k]);
      }
      forall k | k in b ensures ParamEqual(b[k], params[k]) {
        assert k in a ==> !Clash(prints, a[k], b[k]);
      }
      assert WhenSubset(a, params) && WhenSubset(b, params) && Printed(prints, params);
    }
  }

  lemma {:induction false} AtMostOneKept<T>(keep: T -> bool, xs: seq<T>)
    ensures |Filter(keep, xs)| <= 1 <==> forall i, j :: 0 <= i < j < |xs| ==> !(keep(xs[i]) && keep(xs[j]))
  {
    if xs != [] {
      var init, last := xs[..|xs| - 1], xs[|xs| - 1];
      assert xs == init + [last];
      AtMostOneKept(keep, init);
      FilterSnoc(keep, init, last);
      if keep(last) {
        NothingKept(keep, init);
      }
    }
  }

  lemma {:induction false} NothingKept<T>(keep: T -> bool, xs: seq<T>)
    ensures Filter(keep, xs) == [] <==> forall i :: 0 <= i < |xs| ==> !keep(xs[i])
  {
    if xs != [] {
      NothingKept(keep, xs[..|xs| - 1]);
      assert xs == xs[..|xs| - 1] + [xs[|xs| - 1]];
      FilterSnoc(keep, xs[..|xs| - 1], xs[|xs| - 1]);
    }
  }

  /** For bars whose own values print as given, disjointness is exactly what makes every selection unambiguous. */
  lemma DisjointExactly(prints: Printing, bars: seq<Sla>)
    requires forall i :: 0 <= i < |bars| ==> Printed(prints, bars[i].when)
    ensures DisjointFor(prints, bars) <==>
            forall metric, percentile, params :: Printed(prints, params) ==>
              |Filter(Selects(metric, percentile, params), bars)| <= 1
  {
    if DisjointFor(prints, bars) {
      forall metric, percentile, params | Printed(prints, params)
        ensures |Filter(Selects(metric, percentile, params), bars)| <= 1
      {
        var keep := Selects(metric, percentile, params);
        forall i, j | 0 <= i < j < |bars| && keep(bars[i]) && keep(bars[j]) ensures false {
          assert SameTarget(bars[i], bars[j]);
          ClashExcludes(prints, bars[i].when, bars[j].when);
        }
        AtMostOneKept(keep, bars);
      }
    } else {
      var i, j :| 0 <= i < j < |bars| && SameTarget(bars[i], bars[j])
                  && !ConditionsClash(prints, bars[i].when, bars[j].when);
      ClashExcludes(prints, bars[i].when, bars[j].when);
      var params :| Printed(prints, params) && WhenSubset(bars[i].when, params) && WhenSubset(bars[j].when, params);
      AtMostOneKept(Selects(bars[i].metric, bars[i].percentile, params), bars);
    }
  }

  /** Disjoint bars never conflict, whatever the run's parameters are and however they print. */
  lemma DisjointNeverConflicts(bars: seq<Sla>, metric: string, percentile: string, params: map<string, Param>)
    requires Disjoint(bars)
    ensures |Filter(Selects(metric, percentile, params), bars)| <= 1
  {
    DisjointExactly(ANY_PRINTING, bars);
    assert Printed(ANY_PRINTING, params);
  }

  /** The asymmetry: a number bar and a text bar for the same printed value both accept that number. */
  lemma NumberAndItsTextOverlap(x: real, t: string)
    ensures ParamEqual(Number(x, t), Number(x, t)) && ParamEqual(Text(t), Number(x, t))
    ensures !ParamEqual(Number(x, t), Text(t))
  {
  }

  // ---- grading SLAs ---------------------------------------------------------------

  datatype Grade = NotMeasured | DataError | ReportOnly | MissingMetric | Incompatible | Compared(pass: bool)

  function GradeOutcome(g: Grade): Outcome
  {
    match g
    case NotMeasured => Skip
    case ReportOnly => Skip
    case Compared(pass) => if pass then Pass else Fail
    case _ => Error
  }

  function GradeReason(g: Grade, bars: seq<Sla>): string
  {
    match g
    case NotMeasured => "tool cannot measure metric"
    case DataError => "data error"
    case ReportOnly => "report-only: no threshold bar for these run params"
    case MissingMetric => "missing required metric for graded SLA"
    case Incompatible => "incompatible units"
    case Compared(_) => if bars == [] then "" else bars[0].condition
  }

  predicate Measures(measuredBy: Option<seq<string>>, tool: string)
  {
    measuredBy == None || tool in measuredBy.value
  }

  function FindMetric(metrics: seq<Metric>, name: string, percentile: string): Option<Metric>
  {
    if metrics == [] then None
    else if metrics[0].name == name && (percentile == "" || metrics[0].percentile == percentile) then Some(metrics[0])
    else FindMetric(metrics[1..], name, percentile)
  }

  predicate Compare(actual: real, op: string, want: real)
  {
    if op == "<=" then actual <= want
    else if op == "<" then actual < want
    else if op == ">=" then actual >= want
    else if op == ">" then actual > want
    else op == "==" && actual == want
  }

  /** The operators by what they mean together: of "<", "==" and ">" exactly one passes, the other two combine them,
      and no other operator passes anything. */
  lemma OperatorsMeanTheirOrder(x: real, y: real, op: string)
    ensures Compare(x, "<", y) <==> y > x
    ensures Compare(x, ">", y) <==> Compare(y, "<", x)
    ensures Compare(x, "==", y) <==> !Compare(x, "<", y) && !Compare(x, ">", y)
    ensures Compare(x, "<=", y) <==> Compare(x, "<", y) || Compare(x, "==", y)
    ensures Compare(x, ">=", y) <==> Compare(x, ">", y) || Compare(x, "==", y)
    ensures op !in {"<", "<=", ">", ">=", "=="} ==> !Compare(x, op, y)
  {
  }

  /** `None` for two known units of different dimensions. */
  function CompareWithUnits(
    units: Units, measured: real, measuredUnit: string, op: string, want: real, wantUnit: string): Option<bool>
  {
    match (units(measuredUnit), units(wantUnit))
    case (Some(m), Some(w)) =>
      if m.dimension == w.dimension then Some(Compare(measured * m.factor, op, want * w.factor)) else None
    case _ => Some(Compare(measured, op, want))
  }

  function GradeSla(units: Units, tr: Requirement, res: TestResult, d: Sla): Grade
  {
    var bars := Filter(Selects(d.metric, d.percentile, tr.params), tr.bars);
    var m := FindMetric(res.metrics, d.metric, d.percentile);
    if !Measures(d.measuredBy, tr.automationTool) then NotMeasured
    else if |bars| > 1 then DataError
    else if bars == [] || bars[0].value == None then ReportOnly
    else if m == None then MissingMetric
    else
      match CompareWithUnits(units, m.value.value, m.value.unit, bars[0].operator, bars[0].value.value, bars[0].unit)
      case None => Incompatible
      case Some(pass) => Compared(pass)
  }

  // ---- what a grade means -------------------------------------------------------------

  /** Every condition names a parameter that has its number, or prints as its text. */
  predicate HoldsFor(when: map<string, Param>, params: map<string, Param>)
  {
    forall k :: k in when ==>
      && k in params
      && (if when[k].Number? then params[k].Number? && params[k].value == when[k].value else params[k].text == when[k].text)
  }

  predicate Governs(tr: Requirement, d: Sla, i: nat)
  {
    && i < |tr.bars| && tr.bars[i].metric == d.metric && tr.bars[i].percentile == d.percentile
    && HoldsFor(tr.bars[i].when, tr.params)
  }

  lemma GovernsSelects(tr: Requirement, d: Sla)
    ensures forall i: nat :: Governs(tr, d, i)
              <==> i < |tr.bars| && Selects(d.metric, d.percentile, tr.params)(tr.bars[i])
  {
    forall i: nat | i < |tr.bars| ensures HoldsFor(tr.bars[i].when, tr.params) <==> WhenSubset(tr.bars[i].when, tr.params) {
    }
  }

  ghost predicate OnlyBar(tr: Requirement, d: Sla, bar: Sla)
  {
    exists i: nat :: Governs(tr, d, i) && tr.bars[i] == bar && forall j: nat :: Governs(tr, d, j) ==> j == i
  }

  ghost predicate Ambiguous(tr: Requirement, d: Sla)
  {
    exists i: nat, j: nat :: i < j && Governs(tr, d, i) && Governs(tr, d, j)
  }

  predicate Matches(m: Metric, d: Sla)
  {
    m.name == d.metric && (d.percentile == "" || m.percentile == d.percentile)
  }

  /** `m` is the first metric reported for the descriptor. */
  ghost predicate Measured(res: TestResult, d: Sla, m: Metric)
  {
    exists i: nat :: FirstMatch(res.metrics, d, i) && res.metrics[i] == m
  }

  ghost predicate FirstMatch(metrics: seq<Metric>, d: Sla, i: nat)
  {
    i < |metrics| && Matches(metrics[i], d) && forall j: nat :: j < i ==> !Matches(metrics[j], d)
  }

  /** Not two known units of different dimensions. */
  predicate Comparable(units: Units, m: Metric, bar: Sla)
  {
    units(m.unit).Some? && units(bar.unit).Some? ==> units(m.unit).value.dimension == units(bar.unit).value.dimension
  }

  /** A unit's factor when both units are known; otherwise the plain numbers are compared. */
  function Scale(units: Units, unit: string, other: string): real
  {
    if units(unit).Some? && units(other).Some? then units(unit).value.factor else 1.0
  }

  predicate Meets(units: Units, m: Metric, bar: Sla)
  {
    bar.value.Some? &&
    Compare(m.value * Scale(units, m.unit, bar.unit), bar.operator, bar.value.value * Scale(units, bar.unit, m.unit))
  }

  /** The descriptor's one bar has a value, and the measurement can be held against it. */
  ghost predicate HeldAgainst(units: Units, tr: Requirement, res: TestResult, d: Sla, m: Metric, bar: Sla)
  {
    OnlyBar(tr, d, bar) && Measured(res, d, m) && bar.value.Some? && Comparable(units, m, bar)
  }

  /** The descriptor's one bar has a value, and no measurement can be held against it. */
  ghost predicate Unanswered(units: Units, tr: Requirement, res: TestResult, d: Sla, bar: Sla)
  {
    OnlyBar(tr, d, bar) && bar.value.Some? && forall m :: !HeldAgainst(units, tr, res, d, m, bar)
  }

  /** The outcome of a descriptor by its bars and its measurement: no other outcome is possible. */
  ghost predicate Deserves(units: Units, tr: Requirement, res: TestResult, d: Sla, o: Outcome)
  {
    var measurable := d.measuredBy == None || tr.automationTool in d.measuredBy.value;
    var passes := exists bar, m :: HeldAgainst(units, tr, res, d, m, bar) && Meets(units, m, bar);
    var fails := exists bar, m :: HeldAgainst(units, tr, res, d, m, bar) && !Meets(units, m, bar);
    var ungraded := (forall i: nat :: !Governs(tr, d, i)) || exists bar :: OnlyBar(tr, d, bar) && bar.value == None;
    var broken := Ambiguous(tr, d) || exists bar :: Unanswered(units, tr, res, d, bar);
    && (o == Pass <==> measurable && passes)
    && (o == Fail <==> measurable && fails)
    && (o == Skip <==> !measurable || ungraded)
    && (o == Error <==> measurable && broken)
  }

  lemma {:induction false} OneKept<T>(keep: T -> bool, xs: seq<T>, i: nat)
    requires i < |xs| && keep(xs[i]) && forall j :: 0 <= j < |xs| && keep(xs[j]) ==> j == i
    ensures Filter(keep, xs) == [xs[i]]
  {
    var init, last := xs[..|xs| - 1], xs[|xs| - 1];
    assert xs == init + [last];
    FilterSnoc(keep, init, last);
    if i < |init| {
      OneKept(keep, init, i);
    } else {
      FilterNone(keep, init);
    }
  }

  /** The bars selected, by the indices that govern the descriptor. */
  lemma BarsMeaning(tr: Requirement, d: Sla)
    ensures var bars := Filter(Selects(d.metric, d.percentile, tr.params), tr.bars);
            && (|bars| > 1 <==> Ambiguous(tr, d))
            && (bars == [] <==> forall i: nat :: !Governs(tr, d, i))
            && (forall bar :: OnlyBar(tr, d, bar) <==> bars == [bar])
  {
    var keep := Selects(d.metric, d.percentile, tr.params);
    var bars := Filter(keep, tr.bars);
    AtMostOneKept(keep, tr.bars);
    NothingKept(keep, tr.bars);
    GovernsSelects(tr, d);
    assert forall i: nat :: Governs(tr, d, i) <==> i < |tr.bars| && keep(tr.bars[i]);
    forall i: nat | Governs(tr, d, i) && forall j: nat :: Governs(tr, d, j) ==> j == i ensures bars == [tr.bars[i]] {
      assert forall j: nat :: j < |tr.bars| && keep(tr.bars[j]) ==> Governs(tr, d, j);
      OneKept(keep, tr.bars, i);
    }
    if |bars| == 1 {
      var i: nat :| Governs(tr, d, i);
      assert forall j: nat :: Governs(tr, d, j) ==> j == i;
      assert OnlyBar(tr, d, tr.bars[i]);
    }
  }

  lemma {:induction false} FoundIsFirst(metrics: seq<Metric>, d: Sla)
    ensures FindMetric(metrics, d.metric, d.percentile) == None <==> forall i: nat :: !FirstMatch(metrics, d, i)
    ensures forall i: nat :: FirstMatch(metrics, d, i) ==> FindMetric(metrics, d.metric, d.percentile) == Some(metrics[i])
  {
    if metrics != [] && !Matches(metrics[0], d) {
      FoundIsFirst(metrics[1..], d);
      forall i: nat ensures FirstMatch(metrics, d, i) <==> i > 0 && FirstMatch(metrics[1..], d, i - 1) {
        assert forall j: nat :: 0 < j < |metrics| ==> metrics[j] == metrics[1..][j - 1];
        assert forall j: nat :: j + 1 < |metrics| ==> metrics[1..][j] == metrics[j + 1];
      }
      if FindMetric(metrics, d.metric, d.percentile).Some? {
        var i: nat :| FirstMatch(metrics[1..], d, i);
        assert FirstMatch(metrics, d, i + 1);
      }
    } else if metrics != [] {
      assert FirstMatch(metrics, d, 0);
    }
  }

  lemma MeasuredMeaning(res: TestResult, d: Sla)
    ensures forall m :: Measured(res, d, m) <==> FindMetric(res.metrics, d.metric, d.percentile) == Some(m)
  {
    FoundIsFirst(res.metrics, d);
  }

  lemma HeldMeaning(units: Units, tr: Requirement, res: TestResult, d: Sla)
    ensures forall m, bar :: HeldAgainst(units, tr, res, d, m, bar)
              <==> Filter(Selects(d.metric, d.percentile, tr.params), tr.bars) == [bar] && bar.value.Some?
                   && FindMetric(res.metrics, d.metric, d.percentile) == Some(m) && Comparable(units, m, bar)
    ensures forall bar :: Unanswered(units, tr, res, d, bar)
              <==> Filter(Selects(d.metric, d.percentile, tr.params), tr.bars) == [bar] && bar.value.Some?
                   && var m := FindMetric(res.metrics, d.metric, d.percentile); m == None || !Comparable(units, m.value, bar)
  {
    BarsMeaning(tr, d);
    MeasuredMeaning(res, d);
    var found := FindMetric(res.metrics, d.metric, d.percentile);
    forall bar | Unanswered(units, tr, res, d, bar) ensures found == None || !Comparable(units, found.value, bar) {
      if found.Some? {
        assert !HeldAgainst(units, tr, res, d, found.value, bar);
      }
    }
  }

  lemma ComparedMeaning(units: Units, m: Metric, bar: Sla)
    requires bar.value.Some?
    ensures CompareWithUnits(units, m.value, m.unit, bar.operator, bar.value.value, bar.unit)
         == if Comparable(units, m, bar) then Some(Meets(units, m, bar)) else None
  {
  }

  /** The chain of cases in `gradeSLAs` gives every descriptor the outcome it deserves. */
  lemma GradeMeaning(units: Units, tr: Requirement, res: TestResult, d: Sla)
    ensures Deserves(units, tr, res, d, GradeOutcome(GradeSla(units, tr, res, d)))
  {
    BarsMeaning(tr, d);
    HeldMeaning(units, tr, res, d);
    var bars := Filter(Selects(d.metric, d.percentile, tr.params), tr.bars);
    var found := FindMetric(res.metrics, d.metric, d.percentile);
    if |bars| == 1 {
      var bar := bars[0];
      assert bars == [bar] && OnlyBar(tr, d, bar);
      if bar.value.Some? && found.Some? {
        ComparedMeaning(units, found.value, bar);
        assert HeldAgainst(units, tr, res, d, found.value, bar) <==> Comparable(units, found.value, bar);
      }
      assert bar.value.Some? && found == None ==> Unanswered(units, tr, res, d, bar);
    }
  }

  /** `x` is at least as good a reading as `y` under the operator. */
  predicate AtLeastAsGood(op: string, x: real, y: real)
  {
    if op == "<=" || op == "<" then x <= y else if op == ">=" || op == ">" then x >= y else x == y
  }

  lemma StillMet(units: Units, m: Metric, n: Metric, bar: Sla)
    requires units(m.unit).Some? && units(n.unit).Some? && units(bar.unit).Some?
    requires AtLeastAsGood(bar.operator, n.value * units(n.unit).value.factor, m.value * units(m.unit).value.factor)
    ensures Meets(units, m, bar) ==> Meets(units, n, bar)
  {
  }

  lemma PassedBy(units: Units, tr: Requirement, res: TestResult, d: Sla, m: Metric) returns (bar: Sla)
    requires Measured(res, d, m) && GradeOutcome(GradeSla(units, tr, res, d)) == Pass
    ensures HeldAgainst(units, tr, res, d, m, bar) && Meets(units, m, bar)
    ensures d.measuredBy == None || tr.automationTool in d.measuredBy.value
  {
    GradeMeaning(units, tr, res, d);
    MeasuredMeaning(res, d);
    var held: Metric;
    bar, held :| HeldAgainst(units, tr, res, d, held, bar) && Meets(units, held, bar);
  }

  /** A reading at least as good, in any unit of the same dimension, keeps a pass. */
  lemma BetterStillPasses(units: Units, tr: Requirement, res: TestResult, better: TestResult, d: Sla, m: Metric, n: Metric)
    requires Measured(res, d, m) && Measured(better, d, n) && units(m.unit).Some? && units(n.unit).Some?
    requires units(m.unit).value.dimension == units(n.unit).value.dimension
    requires forall bar :: OnlyBar(tr, d, bar) ==> units(bar.unit).Some?
    requires forall bar :: OnlyBar(tr, d, bar) ==>
      AtLeastAsGood(bar.operator, n.value * units(n.unit).value.factor, m.value * units(m.unit).value.factor)
    requires GradeOutcome(GradeSla(units, tr, res, d)) == Pass
    ensures GradeOutcome(GradeSla(units, tr, better, d)) == Pass
  {
    var bar := PassedBy(units, tr, res, d, m);
    StillMet(units, m, n, bar);
    assert HeldAgainst(units, tr, better, d, n, bar);
    GradeMeaning(units, tr, better, d);
  }

  function MetricLabel(metric: string, percentile: string): string
  {
    if percentile != "" then metric + "@" + percentile else metric
  }

  function SlaItem(s: Sla): string
  {
    "sla:" + MetricLabel(s.metric, s.percentile)
  }

  function CheckItem(c: Check): string
  {
    "check:" + c.id
  }

  function SlaVerdict(units: Units, tr: Requirement, res: TestResult, d: Sla): Verdict
  {
    var g := GradeSla(units, tr, res, d);
    Verdict(tr.id, "", 0, "", SlaItem(d), GradeOutcome(g), 0.0,
            GradeReason(g, Filter(Selects(d.metric, d.percentile, tr.params), tr.bars)))
  }

  /** One descriptor, as the loop body of `gradeSLAs` grades it. */
  method GradeDescriptor(units: Units, tr: Requirement, res: TestResult, d: Sla) returns (v: Verdict)
    ensures v == SlaVerdict(units, tr, res, d)
  {
    v := Verdict(tr.id, "", 0, "", SlaItem(d), Skip, 0.0, GradeReason(NotMeasured, []));
    if !Measures(d.measuredBy, tr.automationTool) {
      return;
    }
    var bars := SelectBars(tr.bars, d.metric, d.percentile, tr.params);
    if |bars| > 1 {
      return v.(outcome := Error, reason := GradeReason(DataError, bars));
    }
    var m := FindMetric(res.metrics, d.metric, d.percentile);
    if bars == [] || bars[0].value == None {
      return v.(reason := GradeReason(ReportOnly, bars));
    }
    if m == None {
      return v.(outcome := Error, reason := GradeReason(MissingMetric, bars));
    }
    var bar := bars[0];
    var c := CompareWithUnits(units, m.value.value, m.value.unit, bar.operator, bar.value.value, bar.unit);
    if c == None {
      return v.(outcome := Error, reason := GradeReason(Incompatible, bars));
    }
    v := v.(outcome := if c.value then Pass else Fail, reason := bar.condition);
  }

  method GradeSlas(units: Units, tr: Requirement, res: TestResult) returns (out: seq<Verdict>)
    ensures |out| == |tr.slas|
    ensures forall i :: 0 <= i < |out| ==> out[i] == SlaVerdict(units, tr, res, tr.slas[i])
    ensures Disjoint(tr.bars) ==> forall i :: 0 <= i < |out| ==> GradeSla(units, tr, res, tr.slas[i]) != DataError
  {
    out := [];
    for n := 0 to |tr.slas|
      invariant |out| == n
      invariant forall i :: 0 <= i < n ==> out[i] == SlaVerdict(units, tr, res, tr.slas[i])
    {
      var v := GradeDescriptor(units, tr, res, tr.slas[n]);
      out := out + [v];
    }
    forall i | 0 <= i < |out| && Disjoint(tr.bars) ensures GradeSla(units, tr, res, tr.slas[i]) != DataError {
      NoDataError(units, tr, res, tr.slas[i]);
    }
  }

  lemma NoDataError(units: Units, tr: Requirement, res: TestResult, d: Sla)
    requires Disjoint(tr.bars)
    ensures GradeSla(units, tr, res, d) != DataError
  {
    DisjointNeverConflicts(tr.bars, d.metric, d.percentile, tr.params);
  }

  // ---- grading checks ----------------------------------------------------------------

  const TO_BE_VALIDATED := "to-be-validated"

  function CheckVerdict(tr: Requirement, res: TestResult, c: Check): Verdict
  {
    var outcome :=
      if c.status == TO_BE_VALIDATED || c.kind == MANUAL then Skip
      else if c.id !in res.checks || res.checks[c.id].OtherOutcome? then Error
      else res.checks[c.id];
    Verdict(tr.id, "", 0, "", CheckItem(c), outcome, 0.0, c.kind)
  }

  /** The outcome of a check by what the tool reported for it: no other outcome is possible. */
  ghost predicate Reported(res: TestResult, c: Check, o: Outcome)
  {
    var automated := c.status != "to-be-validated" && c.kind != "manual";
    && (o == Pass <==> automated && c.id in res.checks && res.checks[c.id] == Pass)
    && (o == Fail <==> automated && c.id in res.checks && res.checks[c.id] == Fail)
    && (o == Skip <==> !automated || (c.id in res.checks && res.checks[c.id] == Skip))
    && (o == Error <==> automated && (c.id !in res.checks || res.checks[c.id] !in {Pass, Fail, Skip}))
  }

  method GradeChecks(tr: Requirement, res: TestResult) returns (out: seq<Verdict>)
    ensures |out| == |tr.checks|
    ensures forall i :: 0 <= i < |out| ==> out[i] == CheckVerdict(tr, res, tr.checks[i])
  {
    out := [];
    for n := 0 to |tr.checks|
      invariant |out| == n
      invariant forall i :: 0 <= i < n ==> out[i] == CheckVerdict(tr, res, tr.checks[i])
    {
      var c := tr.checks[n];
      var v := Verdict(tr.id, "", 0, "", CheckItem(c), Skip, 0.0, c.kind);
      if c.status == TO_BE_VALIDATED {
        out := out + [v];
        continue;
      } else if c.kind == MANUAL {
        out := out + [v];
        continue;
      }
      if c.id !in res.checks {
        out := out + [v.(outcome := Error)];
        continue;
      }
      var native := res.checks[c.id];
      out := out + [v.(outcome := if native.OtherOutcome? then Error else native)];
    }
  }

  // ---- items, and what a rerun replaces ------------------------------------------------

  /** The graded items of a requirement, in verdict order. */
  function Items(tr: Requirement): seq<string>
  {
    seq(|tr.slas| + |tr.checks|, i requires 0 <= i < |tr.slas| + |tr.checks| =>
      if i < |tr.slas| then SlaItem(tr.slas[i]) else CheckItem(tr.checks[i - |tr.slas|]))
  }

  lemma ItemNames(tr: Requirement)
    ensures |Items(tr)| == |tr.slas| + |tr.checks|
    ensures forall i :: 0 <= i < |tr.slas| && tr.slas[i].percentile == "" ==> Items(tr)[i] == "sla:" + tr.slas[i].metric
    ensures forall i :: 0 <= i < |tr.slas| && tr.slas[i].percentile != "" ==>
              Items(tr)[i] == "sla:" + tr.slas[i].metric + "@" + tr.slas[i].percentile
    ensures forall i :: 0 <= i < |tr.checks| ==> Items(tr)[|tr.slas| + i] == "check:" + tr.checks[i].id
  {
    forall i | 0 <= i < |tr.slas| && tr.slas[i].percentile != ""
      ensures Items(tr)[i] == "sla:" + tr.slas[i].metric + "@" + tr.slas[i].percentile
    {
      SlaItemText(tr.slas[i]);
    }
    forall i | 0 <= i < |tr.checks| ensures Items(tr)[|tr.slas| + i] == "check:" + tr.checks[i].id {
      assert Items(tr)[|tr.slas| + i] == CheckItem(tr.checks[|tr.slas| + i - |tr.slas|]);
    }
  }

  predicate HasItems(tr: Requirement)
  {
    tr.slas != [] || tr.checks != []
  }

  /** Every SLA and every check got the outcome it deserves. */
  ghost predicate AllDeserved(units: Units, tr: Requirement, res: TestResult, vs: seq<Verdict>)
  {
    && |vs| == |tr.slas| + |tr.checks|
    && (forall i :: 0 <= i < |tr.slas| ==> Deserves(units, tr, res, tr.slas[i], vs[i].outcome))
    && (forall i :: 0 <= i < |tr.checks| ==> Reported(res, tr.checks[i], vs[|tr.slas| + i].outcome))
  }

  /** `GradeTR` with the built-in rules, stamped with variant, level and scenario. */
  method Graded(units: Units, tr: Requirement, res: TestResult, scenario: string) returns (out: seq<Verdict>)
    ensures IsAttempt(out, tr, scenario, Items(tr))
    ensures AllDeserved(units, tr, res, out)
    ensures forall v :: v in out ==> v.tr == tr.id && v.variant == tr.variant && v.scenario == scenario && v.level == tr.partnerLevel
  {
    var slas := GradeSlas(units, tr, res);
    var checks := GradeChecks(tr, res);
    out := Stamped(slas + checks, tr, scenario);
    StampedGrades(units, tr, res, scenario, slas, checks, out);
  }

  /** Joining the graded SLAs and checks and stamping them gives one deserved verdict per item. */
  lemma StampedGrades(units: Units, tr: Requirement, res: TestResult, scenario: string,
                      slas: seq<Verdict>, checks: seq<Verdict>, out: seq<Verdict>)
    requires |slas| == |tr.slas| && |checks| == |tr.checks| && |out| == |slas + checks|
    requires forall i :: 0 <= i < |slas| ==> slas[i] == SlaVerdict(units, tr, res, tr.slas[i])
    requires forall i :: 0 <= i < |checks| ==> checks[i] == CheckVerdict(tr, res, tr.checks[i])
    requires forall i :: 0 <= i < |out| ==> out[i] == Stamp((slas + checks)[i], tr, scenario)
    ensures IsAttempt(out, tr, scenario, Items(tr))
    ensures AllDeserved(units, tr, res, out)
    ensures forall v :: v in out ==> v.level == tr.partnerLevel
  {
    var all := slas + checks;
    assert forall i :: 0 <= i < |slas| ==> all[i] == slas[i];
    assert forall i :: 0 <= i < |checks| ==> all[|slas| + i] == checks[i];
    AllItems(units, tr, res, all);
    GradesDeserved(units, tr, res, all);
    SameOutcomes(units, tr, res, all, out);
  }

  lemma GradesDeserved(units: Units, tr: Requirement, res: TestResult, all: seq<Verdict>)
    requires |all| == |tr.slas| + |tr.checks|
    requires forall i :: 0 <= i < |tr.slas| ==> all[i] == SlaVerdict(units, tr, res, tr.slas[i])
    requires forall i :: 0 <= i < |tr.checks| ==> all[|tr.slas| + i] == CheckVerdict(tr, res, tr.checks[i])
    ensures AllDeserved(units, tr, res, all)
  {
    forall i | 0 <= i < |tr.slas| ensures Deserves(units, tr, res, tr.slas[i], all[i].outcome) {
      GradeMeaning(units, tr, res, tr.slas[i]);
    }
    forall i | 0 <= i < |tr.checks| ensures Reported(res, tr.checks[i], all[|tr.slas| + i].outcome) {
      CheckMeaning(tr, res, tr.checks[i]);
    }
  }

  lemma CheckMeaning(tr: Requirement, res: TestResult, c: Check)
    ensures Reported(res, c, CheckVerdict(tr, res, c).outcome)
  {
  }

  lemma SameOutcomes(units: Units, tr: Requirement, res: TestResult, before: seq<Verdict>, after: seq<Verdict>)
    requires AllDeserved(units, tr, res, before) && |after| == |before|
    requires forall i :: 0 <= i < |before| ==> after[i].outcome == before[i].outcome
    ensures AllDeserved(units, tr, res, after)
  {
  }

  lemma AllItems(units: Units, tr: Requirement, res: TestResult, all: seq<Verdict>)
    requires |all| == |tr.slas| + |tr.checks|
    requires forall i :: 0 <= i < |tr.slas| ==> all[i] == SlaVerdict(units, tr, res, tr.slas[i])
    requires forall i :: 0 <= i < |tr.checks| ==> all[|tr.slas| + i] == CheckVerdict(tr, res, tr.checks[i])
    ensures forall i :: 0 <= i < |all| ==> all[i].item == Items(tr)[i] && all[i].tr == tr.id
  {
    forall i | 0 <= i < |all| ensures all[i].item == Items(tr)[i] && all[i].tr == tr.id {
      if i >= |tr.slas| {
        assert all[|tr.slas| + (i - |tr.slas|)] == CheckVerdict(tr, res, tr.checks[i - |tr.slas|]);
      }
    }
  }

  function Stamp(v: Verdict, tr: Requirement, scenario: string): Verdict
  {
    v.(variant := tr.variant, level := tr.partnerLevel, scenario := scenario)
  }

  method Stamped(vs: seq<Verdict>, tr: Requirement, scenario: string) returns (out: seq<Verdict>)
    ensures |out| == |vs|
    ensures forall i :: 0 <= i < |vs| ==> out[i] == Stamp(vs[i], tr, scenario)
  {
    out := vs;
    for i := 0 to |vs|
      invariant |out| == |vs|
      invariant forall k :: 0 <= k < |vs| ==>
                  out[k] == if k < i then Stamp(vs[k], tr, scenario) else vs[k]
    {
      out := out[i := out[i].(variant := tr.variant)];
      out := out[i := out[i].(level := tr.partnerLevel)];
      out := out[i := out[i].(scenario := scenario)];
    }
  }

  /** Verdicts of one execution carrying exactly these items in this order. */
  ghost predicate IsAttempt(vs: seq<Verdict>, tr: Requirement, scenario: string, items: seq<string>)
  {
    && |vs| == |items|
    && forall i :: 0 <= i < |vs| ==> vs[i].item == items[i] && About(vs[i], tr, scenario)
  }

  predicate About(v: Verdict, tr: Requirement, scenario: string)
  {
    v.tr == tr.id && v.variant == tr.variant && v.scenario == scenario
  }

  /** The items an execution that produced no result is reported under. */
  function FailedItems(tr: Requirement): seq<string>
  {
    if HasItems(tr) then Items(tr) else ["(none)"]
  }

  function ItemVerdict(tr: Requirement, item: string, outcome: Outcome, reason: string): Verdict
  {
    Verdict(tr.id, tr.variant, 0, "", item, outcome, 0.0, reason)
  }

  ghost predicate Uniform(tr: Requirement, items: seq<string>, outcome: Outcome, reason: string, vs: seq<Verdict>)
  {
    |vs| == |items| && forall i :: 0 <= i < |vs| ==> vs[i] == ItemVerdict(tr, items[i], outcome, reason)
  }

  lemma UniformNext(tr: Requirement, items: seq<string>, n: nat, outcome: Outcome, reason: string, vs: seq<Verdict>)
    requires n < |items| && Uniform(tr, items[..n], outcome, reason, vs)
    ensures Uniform(tr, items[..n + 1], outcome, reason, vs + [ItemVerdict(tr, items[n], outcome, reason)])
  {
  }

  method ItemOfSla(s: Sla) returns (item: string)
    ensures item == SlaItem(s)
  {
    item := "sla:" + s.metric;
    if s.percentile != "" {
      item := item + "@" + s.percentile;
      SlaItemText(s);
    }
  }

  /** `itemVerdicts`: the same outcome and reason for every item. */
  method UniformVerdicts(tr: Requirement, outcome: Outcome, reason: string) returns (out: seq<Verdict>)
    ensures Uniform(tr, FailedItems(tr), outcome, reason, out)
  {
    out := [];
    ghost var items := Items(tr);
    for i := 0 to |tr.slas|
      invariant Uniform(tr, items[..i], outcome, reason, out)
    {
      var item := ItemOfSla(tr.slas[i]);
      assert item == items[i];
      UniformNext(tr, items, i, outcome, reason, out);
      out := out + [ItemVerdict(tr, item, outcome, reason)];
    }
    for i := 0 to |tr.checks|
      invariant Uniform(tr, items[..|tr.slas| + i], outcome, reason, out)
    {
      assert CheckItem(tr.checks[i]) == items[|tr.slas| + i];
      UniformNext(tr, items, |tr.slas| + i, outcome, reason, out);
      out := out + [ItemVerdict(tr, CheckItem(tr.checks[i]), outcome, reason)];
    }
    assert items[..|items|] == items;
    if |out| == 0 {
      out := [ItemVerdict(tr, "(none)", outcome, reason)];
    }
  }

  /** Those verdicts, stamped as graded ones are. */
  method ItemVerdicts(tr: Requirement, outcome: Outcome, reason: string, scenario: string) returns (out: seq<Verdict>)
    ensures IsAttempt(out, tr, scenario, FailedItems(tr))
    ensures forall v :: v in out ==> v.outcome == outcome && v.reason == reason && v.level == tr.partnerLevel
    ensures tr.slas == [] && tr.checks == [] ==> |out| == 1 && out[0].item == "(none)"
  {
    var uniform := UniformVerdicts(tr, outcome, reason);
    out := Stamped(uniform, tr, scenario);
  }

  lemma SlaItemText(s: Sla)
    requires s.percentile != ""
    ensures "sla:" + s.metric + "@" + s.percentile == SlaItem(s)
  {
    assert "sla:" + s.metric + "@" + s.percentile == "sla:" + (s.metric + "@" + s.percentile);
  }

  /** Merging a rerun over earlier attempts at the same items leaves only the rerun's verdicts. */
  lemma RerunLeavesNothingStale(base: Report, next: Report, tr: Requirement, scenario: string, rerun: seq<Verdict>)
    requires IsAttempt(rerun, tr, scenario, Items(tr))
    requires forall v :: v in rerun ==> v in next.verdicts
    requires forall v :: v in base.verdicts && About(v, tr, scenario) ==> v.item in Items(tr)
    ensures forall v :: v in Merged(base, next).verdicts && About(v, tr, scenario) ==> v in next.verdicts
  {
    MergedListsAreUnions(base, next);
    UnionKeepsOrReplaces(VERDICTS, base.verdicts, next.verdicts, Merged(base, next).verdicts);
    forall v | v in base.verdicts && About(v, tr, scenario) ensures VERDICTS.key(v) in Table(VERDICTS.key, next.verdicts) {
      ItemIsRerun(next.verdicts, tr, scenario, rerun, v);
    }
  }

  /** A merged record is the later list's, or has a key only the earlier list holds. */
  lemma UnionKeepsOrReplaces<T>(ix: Index<T>, base: seq<T>, next: seq<T>, merged: seq<T>)
    requires RightBiasedUnion(ix, base, next, merged)
    ensures forall x :: x in merged ==> x in next || (x in base && ix.key(x) !in Table(ix.key, next))
  {
    TableMembers(ix.key, base);
    TableMembers(ix.key, next);
    var m := Table(ix.key, base) + Table(ix.key, next);
    forall x | x in merged ensures x in next || (x in base && ix.key(x) !in Table(ix.key, next)) {
      assert m[ix.key(x)] == x;
    }
  }

  lemma ItemIsRerun(next: seq<Verdict>, tr: Requirement, scenario: string, rerun: seq<Verdict>, v: Verdict)
    requires IsAttempt(rerun, tr, scenario, Items(tr)) && forall w :: w in rerun ==> w in next
    requires About(v, tr, scenario) && v.item in Items(tr)
    ensures VERDICTS.key(v) in Table(VERDICTS.key, next)
  {
    var i :| 0 <= i < |Items(tr)| && Items(tr)[i] == v.item;
    assert rerun[i] in rerun;
    assert VERDICTS.key(rerun[i]) == VERDICTS.key(v);
    TableMembers(VERDICTS.key, next);
  }

  /** Exactly when a rerun replaces a failed attempt: the requirement has at least one SLA or check. */
  lemma RerunReplacesExactly(
    base: Report, next: Report, tr: Requirement, scenario: string, failed: seq<Verdict>, rerun: seq<Verdict>)
    requires IsAttempt(failed, tr, scenario, FailedItems(tr)) && IsAttempt(rerun, tr, scenario, Items(tr))
    requires forall v :: v in base.verdicts || v in next.verdicts ==> PlainVerdict(v)
    requires forall v :: v in failed <==> v in base.verdicts && About(v, tr, scenario)
    requires forall v :: v in rerun <==> v in next.verdicts && About(v, tr, scenario)
    ensures (forall v :: v in Merged(base, next).verdicts && About(v, tr, scenario) ==> v in rerun) <==> HasItems(tr)
  {
    if HasItems(tr) {
      ItemsOfAttempt(failed, tr, scenario, Items(tr));
      RerunLeavesNothingStale(base, next, tr, scenario, rerun);
    } else {
      PlaceholderStays(base, next, tr, scenario, failed[0]);
    }
  }

  lemma ItemsOfAttempt(vs: seq<Verdict>, tr: Requirement, scenario: string, items: seq<string>)
    requires IsAttempt(vs, tr, scenario, items)
    ensures forall v :: v in vs ==> v.item in items
  {
  }

  /** Nothing else about the execution takes the place of a verdict no later one is about. */
  lemma PlaceholderStays(base: Report, next: Report, tr: Requirement, scenario: string, v: Verdict)
    requires v in base.verdicts && About(v, tr, scenario)
    requires forall w :: w in base.verdicts || w in next.verdicts ==> PlainVerdict(w)
    ensures exists w :: w in Merged(base, next).verdicts && About(w, tr, scenario)
  {
    MergedListsAreUnions(base, next);
    var merged := Merged(base, next).verdicts;
    UnionMembers(VERDICTS, base.verdicts, next.verdicts, merged);
    var w :| w in merged && VERDICTS.key(w) == VERDICTS.key(v);
    VerdictFields(w, v);
  }
}
