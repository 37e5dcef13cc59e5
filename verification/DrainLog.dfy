/**
 The drain-nodes log parser. A line is what the classifiers make of it, in the order they are tried;
 the log is written in append mode, so earlier runs may precede the one to grade.
 */
module DrainLog {
  import opened Core

  datatype Line =
    | Blank                          // no message
    | Rule                           // "===..."
    | BeforeHeader
    | AfterHeader
    | Nodes(target: string)
    | NodeTime(seconds: Option<real>)  // `None`: digits that do not parse
    | TotalTime(seconds: Option<real>)
    | Row(node: string, count: int)
    | Other

  datatype Section = Outside | InBefore | InAfter

  datatype Scan = Scan(
    section: Section, target: string, elapsed: Option<real>, total: Option<real>,
    before: map<string, int>, after: map<string, int>)

  const START := Scan(Outside, "", None, None, map[], map[])

  datatype Failure = EmptyLog | NoTarget | NoDuration(target: string) | NothingToGrade(target: string)

  datatype Drain = Drain(seconds: real, total: int, evacuated: int, remaining: int, rate: real, outcome: Outcome)

  function Feed(s: Scan, line: Line): Scan
  {
    match line
    case Rule => s.(section := Outside)
    case BeforeHeader => s.(section := InBefore, before := map[])
    case AfterHeader => s.(section := InAfter, after := map[])
    case Nodes(target) => s.(target := target)
    case NodeTime(Some(v)) => s.(elapsed := Some(v))
    case TotalTime(Some(v)) => s.(total := Some(v))
    case Row(node, count) =>
      (match s.section
       case InBefore => s.(before := s.before[node := count])
       case InAfter => s.(after := s.after[node := count])
       case Outside => s)
    case _ => s
  }

  function FeedAll(s: Scan, lines: seq<Line>): Scan
  {
    if lines == [] then s else Feed(FeedAll(s, lines[..|lines| - 1]), lines[|lines| - 1])
  }

  function At(counts: map<string, int>, node: string): int
  {
    if node in counts then counts[node] else 0
  }

  /** The per-node time if there is one, else the total. */
  function Duration(s: Scan): Option<real>
  {
    if s.elapsed.Some? then s.elapsed else s.total
  }

  function Grade(s: Scan): Result<Drain, Failure>
  {
    if s.target == "" then Err(NoTarget)
    else if Duration(s) == None then Err(NoDuration(s.target))
    else if At(s.before, s.target) == 0 then Err(NothingToGrade(s.target))
    else
      var total, remaining := At(s.before, s.target), At(s.after, s.target);
      var evacuated := total - remaining;
      Ok(Drain(Duration(s).value, total, evacuated, remaining,
               evacuated as real / total as real * 100.0,
               if remaining > 0 then Fail else Pass))
  }

  function Parse(lines: seq<Line>): Result<Drain, Failure>
  {
    if lines == [] then Err(EmptyLog) else Grade(FeedAll(START, lines))
  }

  method ParseDrain(lines: seq<Line>) returns (result: Result<Drain, Failure>)
    ensures result == Parse(lines)
  {
    if lines == [] {
      return Err(EmptyLog);
    }
    var target := "";
    var elapsed, totalElapsed := 0.0, 0.0;
    var haveElapsed, haveTotal := false, false;
    var before: map<string, int>, after: map<string, int> := map[], map[];
    var section := Outside;
    for n := 0 to |lines|
      invariant FeedAll(START, lines[..n])
             == Scan(section, target, if haveElapsed then Some(elapsed) else None,
                     if haveTotal then Some(totalElapsed) else None, before, after)
    {
      assert lines[..n + 1][..n] == lines[..n];
      match lines[n] {
        case Rule => section := Outside;
        case BeforeHeader => section, before := InBefore, map[];
        case AfterHeader => section, after := InAfter, map[];
        case Nodes(t) => target := t;
        case NodeTime(seconds) =>
          if seconds.Some? {
            elapsed, haveElapsed := seconds.value, true;
          }
        case TotalTime(seconds) =>
          if seconds.Some? {
            totalElapsed, haveTotal := seconds.value, true;
          }
        case Row(node, count) =>
          match section {
            case InBefore => before := before[node := count];
            case InAfter => after := after[node := count];
            case Outside =>
          }
        case _ =>
      }
    }
    assert lines[..|lines|] == lines;
    if target == "" {
      return Err(NoTarget);
    }
    if !haveElapsed && haveTotal {
      elapsed, haveElapsed := totalElapsed, true;
    }
    if !haveElapsed {
      return Err(NoDuration(target));
    }
    if target !in before || before[target] == 0 {
      return Err(NothingToGrade(target));
    }
    var total := before[target];
    var remaining := if target in after then after[target] else 0;
    var evacuated := total - remaining;
    var outcome := Pass;
    if remaining > 0 {
      outcome := Fail;
    }
    result := Ok(Drain(elapsed, total, evacuated, remaining, evacuated as real / total as real * 100.0, outcome));
  }

  /** Every virtual machine of the target is either evacuated or remaining, and a pass means none remains. */
  lemma EvacuatedPlusRemaining(lines: seq<Line>)
    requires Parse(lines).Ok?
    ensures var d := Parse(lines).value;
            && d.evacuated + d.remaining == d.total != 0
            && (d.outcome == Pass <==> d.remaining <= 0)
            && (d.outcome == Pass && d.total > 0 ==> d.rate >= 100.0)
            && (d.remaining == 0 <==> d.rate == 100.0)
  {
  }

  // ---- what the lines say -----------------------------------------------------------------------

  datatype Kind = ANodes | ATime | ATotal | ABefore | AnAfter

  predicate Is(kind: Kind, line: Line)
  {
    match kind
    case ANodes => line.Nodes?
    case ATime => line.NodeTime? && line.seconds.Some?
    case ATotal => line.TotalTime? && line.seconds.Some?
    case ABefore => line.BeforeHeader?
    case AnAfter => line.AfterHeader?
  }

  predicate Has(kind: Kind, lines: seq<Line>)
  {
    exists n :: 0 <= n < |lines| && Is(kind, lines[n])
  }

  lemma HasSnoc(kind: Kind, lines: seq<Line>, line: Line)
    ensures Has(kind, lines + [line]) <==> Has(kind, lines) || Is(kind, line)
  {
    var all := lines + [line];
    assert all[|lines|] == line;
    if n :| 0 <= n < |lines| && Is(kind, lines[n]) {
      assert all[n] == lines[n];
    }
  }

  predicate Boundary(line: Line)
  {
    line.Rule? || line.BeforeHeader? || line.AfterHeader?
  }

  /** `i` is the last line of its kind. */
  ghost predicate LastOf(kind: Kind, lines: seq<Line>, i: nat)
  {
    i < |lines| && Is(kind, lines[i]) && forall k :: i < k < |lines| ==> !Is(kind, lines[k])
  }

  /** Just before line `n` the distribution under this header is being listed. */
  ghost predicate Listing(header: Kind, lines: seq<Line>, n: nat)
    requires n <= |lines|
  {
    exists h :: 0 <= h < n && Is(header, lines[h]) && forall k :: h < k < n ==> !Boundary(lines[k])
  }

  /** Line `i` counts the node in the last distribution under this header. */
  ghost predicate Counts(header: Kind, lines: seq<Line>, node: string, i: nat)
  {
    && i < |lines| && lines[i].Row? && lines[i].node == node && Listing(header, lines, i)
    && forall k :: i < k < |lines| ==> !Is(header, lines[k])
  }

  function Distribution(s: Scan, header: Kind): map<string, int>
  {
    if header == ABefore then s.before else s.after
  }

  lemma ListingNext(header: Kind, lines: seq<Line>, last: Line, n: nat)
    requires (header == ABefore || header == AnAfter) && n <= |lines| + 1
    ensures n <= |lines| ==> (Listing(header, lines + [last], n) <==> Listing(header, lines, n))
    ensures n == |lines| + 1 ==> (Listing(header, lines + [last], n) <==>
              Is(header, last) || (Listing(header, lines, |lines|) && !Boundary(last)))
  {
    var all := lines + [last];
    assert all[|lines|] == last && forall k :: 0 <= k < |lines| ==> all[k] == lines[k];
    if n == |lines| + 1 && Is(header, last) {
      assert Is(header, all[|lines|]);
    }
    if h :| 0 <= h < n && h < |lines| && Is(header, lines[h]) && forall k :: h < k < n && k < |lines| ==> !Boundary(lines[k]) {
      assert Is(header, all[h]);
    }
  }

  lemma CountsNext(header: Kind, lines: seq<Line>, last: Line, node: string, i: nat)
    requires header == ABefore || header == AnAfter
    ensures Counts(header, lines + [last], node, i) <==>
              if Is(header, last) then false
              else Counts(header, lines, node, i) ||
                   (i == |lines| && last.Row? && last.node == node && Listing(header, lines, |lines|))
  {
    var all := lines + [last];
    assert all[|lines|] == last && forall k :: 0 <= k < |lines| ==> all[k] == lines[k];
    if i <= |lines| {
      ListingNext(header, lines, last, i);
    }
  }

  /** The current section is the one being listed. */
  lemma {:induction false} SectionMeaning(lines: seq<Line>)
    ensures FeedAll(START, lines).section == InBefore <==> Listing(ABefore, lines, |lines|)
    ensures FeedAll(START, lines).section == InAfter <==> Listing(AnAfter, lines, |lines|)
  {
    if lines != [] {
      var init, last := lines[..|lines| - 1], lines[|lines| - 1];
      assert lines == init + [last];
      SectionMeaning(init);
      ListingNext(ABefore, init, last, |lines|);
      ListingNext(AnAfter, init, last, |lines|);
    }
  }

  /** The last line counting the node there. */
  ghost predicate LastCount(header: Kind, lines: seq<Line>, node: string, i: nat)
  {
    Counts(header, lines, node, i) && forall j: nat :: i < j ==> !Counts(header, lines, node, j)
  }

  /** `count` is what the lines say about the node, `None` when they count it nowhere. */
  ghost predicate Says(header: Kind, lines: seq<Line>, node: string, count: Option<int>)
  {
    match count
    case Some(c) => exists i: nat :: LastCount(header, lines, node, i) && lines[i].count == c
    case None => forall i: nat :: !Counts(header, lines, node, i)
  }

  function Lookup(counts: map<string, int>, node: string): Option<int>
  {
    if node in counts then Some(counts[node]) else None
  }

  lemma SaysNext(header: Kind, lines: seq<Line>, last: Line, node: string, count: Option<int>)
    requires (header == ABefore || header == AnAfter) && Says(header, lines, node, count)
    ensures Says(header, lines + [last], node,
                 if Is(header, last) then None
                 else if last.Row? && last.node == node && Listing(header, lines, |lines|) then Some(last.count)
                 else count)
  {
    var all := lines + [last];
    forall i: nat ensures Counts(header, all, node, i) <==>
                            if Is(header, last) then false
                            else Counts(header, lines, node, i) ||
                                 (i == |lines| && last.Row? && last.node == node && Listing(header, lines, |lines|))
    {
      CountsNext(header, lines, last, node, i);
    }
    assert all[|lines|] == last;
    if Is(header, last) {
    } else if last.Row? && last.node == node && Listing(header, lines, |lines|) {
      assert LastCount(header, all, node, |lines|);
    } else if count.Some? {
      var i: nat :| LastCount(header, lines, node, i) && lines[i].count == count.value;
      assert LastCount(header, all, node, i) && all[i] == lines[i];
    }
  }

  lemma LookupNext(header: Kind, s: Scan, last: Line, node: string)
    requires header == ABefore || header == AnAfter
    ensures Lookup(Distribution(Feed(s, last), header), node)
         == if Is(header, last) then None
            else if last.Row? && last.node == node && s.section == (if header == ABefore then InBefore else InAfter)
            then Some(last.count)
            else Lookup(Distribution(s, header), node)
  {
  }

  lemma DistributionNext(header: Kind, lines: seq<Line>, last: Line, node: string, s: Scan)
    requires header == ABefore || header == AnAfter
    requires s.section == (if header == ABefore then InBefore else InAfter) <==> Listing(header, lines, |lines|)
    requires Says(header, lines, node, Lookup(Distribution(s, header), node))
    ensures Says(header, lines + [last], node, Lookup(Distribution(Feed(s, last), header), node))
  {
    LookupNext(header, s, last, node);
    SaysNext(header, lines, last, node, Lookup(Distribution(s, header), node));
  }

  /** A node's count is that of its last row in the last distribution under the header, if it has one. */
  lemma {:induction false} DistributionMeaning(header: Kind, lines: seq<Line>, node: string)
    requires header == ABefore || header == AnAfter
    ensures Says(header, lines, node, Lookup(Distribution(FeedAll(START, lines), header), node))
  {
    if lines != [] {
      var init, last := lines[..|lines| - 1], lines[|lines| - 1];
      assert lines == init + [last];
      SectionMeaning(init);
      DistributionMeaning(header, init, node);
      DistributionNext(header, init, last, node, FeedAll(START, init));
    }
  }

  lemma LastOfNext(kind: Kind, lines: seq<Line>, last: Line)
    ensures forall i: nat :: LastOf(kind, lines + [last], i)
              <==> if Is(kind, last) then i == |lines| else LastOf(kind, lines, i)
  {
    var all := lines + [last];
    assert all[|lines|] == last && forall k :: 0 <= k < |lines| ==> all[k] == lines[k];
  }

  /** Target and times are those of the last lines that give them. */
  ghost predicate LastValues(lines: seq<Line>, s: Scan)
  {
    && (forall i: nat :: LastOf(ANodes, lines, i) ==> s.target == lines[i].target)
    && (forall i: nat :: LastOf(ATime, lines, i) ==> s.elapsed == lines[i].seconds)
    && (forall i: nat :: LastOf(ATotal, lines, i) ==> s.total == lines[i].seconds)
  }

  lemma LastValuesNext(lines: seq<Line>, last: Line, s: Scan)
    requires LastValues(lines, s)
    ensures LastValues(lines + [last], Feed(s, last))
  {
    var all := lines + [last];
    assert all[|lines|] == last && forall k :: 0 <= k < |lines| ==> all[k] == lines[k];
    LastOfNext(ANodes, lines, last);
    LastOfNext(ATime, lines, last);
    LastOfNext(ATotal, lines, last);
  }

  lemma {:induction false} ValuesMeaning(lines: seq<Line>)
    ensures LastValues(lines, FeedAll(START, lines))
  {
    if lines != [] {
      var init, last := lines[..|lines| - 1], lines[|lines| - 1];
      assert lines == init + [last];
      ValuesMeaning(init);
      LastValuesNext(init, last, FeedAll(START, init));
    }
  }

  // ---- what the grade says ----------------------------------------------------------------------

  /** The target of the last line that names one. */
  ghost predicate LastTarget(lines: seq<Line>, target: string)
  {
    if Has(ANodes, lines) then exists i: nat :: LastOf(ANodes, lines, i) && lines[i].target == target
    else target == ""
  }

  /** The last node time, and the last total time only if there is no node time. */
  ghost predicate LastSeconds(lines: seq<Line>, seconds: Option<real>)
  {
    if Has(ATime, lines) then exists i: nat :: LastOf(ATime, lines, i) && lines[i].seconds == seconds
    else if Has(ATotal, lines) then exists i: nat :: LastOf(ATotal, lines, i) && lines[i].seconds == seconds
    else seconds == None
  }

  /** A node without a row counts nothing. */
  ghost predicate CountOf(header: Kind, lines: seq<Line>, node: string, count: int)
  {
    Says(header, lines, node, Some(count)) || (Says(header, lines, node, None) && count == 0)
  }

  lemma {:induction false} LastExists(kind: Kind, lines: seq<Line>) returns (i: nat)
    requires Has(kind, lines)
    ensures LastOf(kind, lines, i)
  {
    var init, last := lines[..|lines| - 1], lines[|lines| - 1];
    assert lines == init + [last];
    LastOfNext(kind, init, last);
    if Is(kind, last) {
      i := |init|;
    } else {
      i := LastExists(kind, init);
    }
  }

  lemma {:induction false} NothingSet(lines: seq<Line>)
    ensures var s := FeedAll(START, lines);
            && (!Has(ANodes, lines) ==> s.target == "")
            && (!Has(ATime, lines) ==> s.elapsed == None)
            && (!Has(ATotal, lines) ==> s.total == None)
  {
    if lines != [] {
      var init, last := lines[..|lines| - 1], lines[|lines| - 1];
      assert lines == init + [last] && lines[|init|] == last;
      NothingSet(init);
      HasSnoc(ANodes, init, last);
      HasSnoc(ATime, init, last);
      HasSnoc(ATotal, init, last);
    }
  }

  lemma TargetIs(lines: seq<Line>, target: string)
    ensures LastTarget(lines, target) <==> FeedAll(START, lines).target == target
  {
    NothingSet(lines);
    ValuesMeaning(lines);
    if Has(ANodes, lines) {
      var i := LastExists(ANodes, lines);
    }
  }

  lemma SecondsAre(lines: seq<Line>, seconds: Option<real>)
    ensures LastSeconds(lines, seconds) <==> Duration(FeedAll(START, lines)) == seconds
  {
    NothingSet(lines);
    ValuesMeaning(lines);
    if Has(ATime, lines) {
      var i := LastExists(ATime, lines);
    } else if Has(ATotal, lines) {
      var i := LastExists(ATotal, lines);
    }
  }

  lemma SaysOnce(header: Kind, lines: seq<Line>, node: string, a: Option<int>, b: Option<int>)
    requires Says(header, lines, node, a) && Says(header, lines, node, b)
    ensures a == b
  {
    if a.Some? && b.Some? {
      var i: nat :| LastCount(header, lines, node, i) && lines[i].count == a.value;
      var j: nat :| LastCount(header, lines, node, j) && lines[j].count == b.value;
      assert i == j;
    }
  }

  lemma CountIs(header: Kind, lines: seq<Line>, node: string, count: int)
    requires header == ABefore || header == AnAfter
    ensures CountOf(header, lines, node, count) <==> At(Distribution(FeedAll(START, lines), header), node) == count
  {
    var found := Lookup(Distribution(FeedAll(START, lines), header), node);
    DistributionMeaning(header, lines, node);
    if Says(header, lines, node, Some(count)) {
      SaysOnce(header, lines, node, Some(count), found);
    }
    if Says(header, lines, node, None) {
      SaysOnce(header, lines, node, None, found);
    }
  }

  /** The grade of a log, by its last target and times and by the target's rows in its last distributions. */
  lemma ParseMeaning(lines: seq<Line>, target: string, seconds: Option<real>, total: int, remaining: int)
    requires LastTarget(lines, target) && LastSeconds(lines, seconds)
    requires CountOf(ABefore, lines, target, total) && CountOf(AnAfter, lines, target, remaining)
    ensures Parse(lines)
         == if lines == [] then Err(EmptyLog)
            else if target == "" then Err(NoTarget)
            else if seconds == None then Err(NoDuration(target))
            else if total == 0 then Err(NothingToGrade(target))
            else Ok(Drain(seconds.value, total, total - remaining, remaining,
                          (total - remaining) as real / total as real * 100.0, if remaining >= 1 then Fail else Pass))
  {
    TargetIs(lines, target);
    SecondsAre(lines, seconds);
    CountIs(ABefore, lines, target, total);
    CountIs(AnAfter, lines, target, remaining);
    GradeOf(FeedAll(START, lines), target, seconds, total, remaining);
  }

  lemma GradeOf(s: Scan, target: string, seconds: Option<real>, total: int, remaining: int)
    requires s.target == target && Duration(s) == seconds && At(s.before, target) == total && At(s.after, target) == remaining
    ensures Grade(s)
         == if target == "" then Err(NoTarget)
            else if seconds == None then Err(NoDuration(target))
            else if total == 0 then Err(NothingToGrade(target))
            else Ok(Drain(seconds.value, total, total - remaining, remaining,
                          (total - remaining) as real / total as real * 100.0, if remaining >= 1 then Fail else Pass))
  {
  }

  // ---- append mode ------------------------------------------------------------------------------

  lemma {:induction false} FeedOn(s: Scan, first: seq<Line>, second: seq<Line>)
    ensures FeedAll(s, first + second) == FeedAll(FeedAll(s, first), second)
  {
    if second == [] {
      assert first + second == first;
    } else {
      FeedOn(s, first, second[..|second| - 1]);
      assert (first + second)[..|first + second| - 1] == first + second[..|second| - 1];
    }
  }

  /** What the lines of a run overwrite; everything else keeps what came before. */
  ghost predicate OverwritesValues(s: Scan, lines: seq<Line>, got: Scan, alone: Scan)
  {
    && got.target == (if Has(ANodes, lines) then alone.target else s.target)
    && got.elapsed == (if Has(ATime, lines) then alone.elapsed else s.elapsed)
    && got.total == (if Has(ATotal, lines) then alone.total else s.total)
    && (Has(ATime, lines) ==> alone.elapsed.Some?)
    && (Has(ATotal, lines) ==> alone.total.Some?)
  }

  ghost predicate OverwritesBefore(s: Scan, lines: seq<Line>, got: Scan, alone: Scan)
  {
    && (Has(ABefore, lines) ==> got.before == alone.before && (got.section == InBefore <==> alone.section == InBefore))
    && (!Has(ABefore, lines) ==> alone.section != InBefore)
    && (!Has(ABefore, lines) && s.section != InBefore ==> got.before == s.before && got.section != InBefore)
  }

  ghost predicate OverwritesAfter(s: Scan, lines: seq<Line>, got: Scan, alone: Scan)
  {
    && (Has(AnAfter, lines) ==> got.after == alone.after && (got.section == InAfter <==> alone.section == InAfter))
    && (!Has(AnAfter, lines) ==> alone.section != InAfter)
    && (!Has(AnAfter, lines) && s.section != InAfter ==> got.after == s.after && got.section != InAfter)
  }

  lemma FeedsValues(s: Scan, last: Line)
    ensures var fed := Feed(s, last);
            && fed.target == (if Is(ANodes, last) then last.target else s.target)
            && fed.elapsed == (if Is(ATime, last) then last.seconds else s.elapsed)
            && fed.total == (if Is(ATotal, last) then last.seconds else s.total)
  {
  }

  lemma ValuesStep(s: Scan, lines: seq<Line>, last: Line, got: Scan, alone: Scan)
    requires OverwritesValues(s, lines, got, alone)
    ensures OverwritesValues(s, lines + [last], Feed(got, last), Feed(alone, last))
  {
    FeedsValues(got, last);
    FeedsValues(alone, last);
    HasSnoc(ANodes, lines, last);
    HasSnoc(ATime, lines, last);
    HasSnoc(ATotal, lines, last);
  }

  lemma {:induction false} ValuesOverwritten(s: Scan, lines: seq<Line>)
    ensures OverwritesValues(s, lines, FeedAll(s, lines), FeedAll(START, lines))
  {
    if lines != [] {
      var init, last := lines[..|lines| - 1], lines[|lines| - 1];
      ValuesOverwritten(s, init);
      ValuesStep(s, init, last, FeedAll(s, init), FeedAll(START, init));
      assert init + [last] == lines;
    }
  }

  lemma BeforeStep(s: Scan, lines: seq<Line>, last: Line, got: Scan, alone: Scan)
    requires OverwritesBefore(s, lines, got, alone)
    ensures OverwritesBefore(s, lines + [last], Feed(got, last), Feed(alone, last))
  {
    HasSnoc(ABefore, lines, last);
  }

  lemma {:induction false} BeforeOverwritten(s: Scan, lines: seq<Line>)
    ensures OverwritesBefore(s, lines, FeedAll(s, lines), FeedAll(START, lines))
  {
    if lines != [] {
      var init, last := lines[..|lines| - 1], lines[|lines| - 1];
      BeforeOverwritten(s, init);
      BeforeStep(s, init, last, FeedAll(s, init), FeedAll(START, init));
      assert init + [last] == lines;
    }
  }

  lemma AfterStep(s: Scan, lines: seq<Line>, last: Line, got: Scan, alone: Scan)
    requires OverwritesAfter(s, lines, got, alone)
    ensures OverwritesAfter(s, lines + [last], Feed(got, last), Feed(alone, last))
  {
    HasSnoc(AnAfter, lines, last);
  }

  lemma {:induction false} AfterOverwritten(s: Scan, lines: seq<Line>)
    ensures OverwritesAfter(s, lines, FeedAll(s, lines), FeedAll(START, lines))
  {
    if lines != [] {
      var init, last := lines[..|lines| - 1], lines[|lines| - 1];
      AfterOverwritten(s, init);
      AfterStep(s, init, last, FeedAll(s, init), FeedAll(START, init));
      assert init + [last] == lines;
    }
  }

  lemma Overwritten(earlier: seq<Line>, run: seq<Line>)
    ensures var s, got, alone := FeedAll(START, earlier), FeedAll(START, earlier + run), FeedAll(START, run);
            && OverwritesValues(s, run, got, alone)
            && OverwritesBefore(s, run, got, alone)
            && OverwritesAfter(s, run, got, alone)
  {
    FeedOn(START, earlier, run);
    ValuesOverwritten(FeedAll(START, earlier), run);
    BeforeOverwritten(FeedAll(START, earlier), run);
    AfterOverwritten(FeedAll(START, earlier), run);
  }

  /** Alone, a run knows nothing it does not say. */
  lemma SaidAlone(run: seq<Line>)
    ensures var s := FeedAll(START, run);
            && (!Has(ANodes, run) ==> s.target == "")
            && (s.elapsed.Some? <==> Has(ATime, run)) && (s.total.Some? <==> Has(ATotal, run))
            && (!Has(ABefore, run) ==> s.before == map[]) && (!Has(AnAfter, run) ==> s.after == map[])
  {
    Overwritten([], run);
    assert [] + run == run;
  }

  /** What a run's lines say by themselves about its target, its times and its counts. */
  ghost predicate SelfContained(run: seq<Line>)
  {
    var s := FeedAll(START, run);
    && Has(ANodes, run)
    && (s.target == "" ||
        (Has(ABefore, run) &&
         if At(s.before, s.target) == 0 then Has(ATime, run) || Has(ATotal, run)
         else Has(ATime, run) && Has(AnAfter, run)))
  }

  ghost predicate Unaffected(run: seq<Line>, earlier: seq<Line>)
  {
    Parse(earlier + run) == Parse(run)
  }

  lemma SelfContainedSuffices(run: seq<Line>, earlier: seq<Line>)
    requires SelfContained(run)
    ensures Unaffected(run, earlier)
  {
    Overwritten(earlier, run);
    SaidAlone(run);
  }

  /** A run that names its target and time and prints both distributions grades alike after any earlier text. */
  lemma AppendModeIsSafe(run: seq<Line>, earlier: seq<Line>)
    requires Has(ANodes, run) && Has(ATime, run) && Has(ABefore, run) && Has(AnAfter, run)
    ensures Parse(earlier + run) == Parse(run)
  {
    SelfContainedSuffices(run, earlier);
    assert Unaffected(run, earlier);
  }

  /** An earlier run that spoils a later one lacking something: it drained `target` in `seconds`, and one remained. */
  function Spoiler(target: string, seconds: real): seq<Line>
  {
    [Nodes(target), NodeTime(Some(seconds)), BeforeHeader, Row(target, 2), AfterHeader, Row(target, 1), Rule]
  }

  lemma SpoilerFeeds(target: string, seconds: real)
    ensures FeedAll(START, Spoiler(target, seconds))
         == Scan(Outside, target, Some(seconds), None, map[target := 2], map[target := 1])
  {
    var l := Spoiler(target, seconds);
    assert l[..1] == [l[0]] && l[..2][..1] == l[..1] && l[..3][..2] == l[..2] && l[..4][..3] == l[..3];
    assert l[..5][..4] == l[..4] && l[..6][..5] == l[..5] && l[..7] == l && l[..7][..6] == l[..6];
    assert FeedAll(START, l[..1]) == Scan(Outside, target, None, None, map[], map[]) by {
      assert l[..1][..0] == [];
    }
    assert FeedAll(START, l[..2]) == Scan(Outside, target, Some(seconds), None, map[], map[]);
    assert FeedAll(START, l[..3]) == Scan(InBefore, target, Some(seconds), None, map[], map[]);
    assert FeedAll(START, l[..4]) == Scan(InBefore, target, Some(seconds), None, map[target := 2], map[]);
    assert FeedAll(START, l[..5]) == Scan(InAfter, target, Some(seconds), None, map[target := 2], map[]);
    assert FeedAll(START, l[..6]) == Scan(InAfter, target, Some(seconds), None, map[target := 2], map[target := 1]);
  }

  /** A time different from the one the run yields without its own per-node time. */
  function OtherTime(run: seq<Line>): real
  {
    var s := FeedAll(START, run);
    if s.total.Some? then s.total.value + 1.0 else 1.0
  }

  lemma NotSelfContainedIsSpoiled(run: seq<Line>)
    requires !SelfContained(run)
    ensures exists earlier :: !Unaffected(run, earlier)
  {
    var s := FeedAll(START, run);
    var target := if Has(ANodes, run) then s.target else "x";
    var earlier := Spoiler(target, OtherTime(run));
    SpoilerFeeds(target, OtherTime(run));
    Overwritten(earlier, run);
    SaidAlone(run);
    assert !Unaffected(run, earlier);
  }

  /** Exactly the self-contained runs are immune to whatever earlier runs left in the log. */
  lemma AppendModeExactly(run: seq<Line>)
    ensures SelfContained(run) <==> forall earlier :: Unaffected(run, earlier)
  {
    if SelfContained(run) {
      forall earlier ensures Unaffected(run, earlier) {
        SelfContainedSuffices(run, earlier);
      }
    } else {
      NotSelfContainedIsSpoiled(run);
    }
  }
}
