/**
 The two percentile rules over exact numbers: nearest rank for clone durations, and kube-burner's
 interpolating rule for snapshot latencies.
 */
module Percentiles {
  import opened Core
  import opened Filtering
  import S = Sorting

  function AtMost(): (real, real) -> bool
  {
    (a: real, b: real) => a <= b
  }

  function Ceil(x: real): int
  {
    -(-x).Floor
  }

  function Sorted(xs: seq<real>): (ys: seq<real>)
    ensures multiset(ys) == multiset(xs) && |ys| == |xs|
  {
    var ys := S.Sort(AtMost(), xs);
    S.SameMembers(ys, xs);
    ys
  }

  lemma SortedAscends(xs: seq<real>)
    ensures S.Ordered(AtMost(), Sorted(xs))
  {
    S.SortOrdered(AtMost(), xs);
  }

  // ---- nearest rank ---------------------------------------------------------------------------

  function Min(a: int, b: int): int { if a <= b then a else b }

  function Max(a: int, b: int): int { if a >= b then a else b }

  function Rank(n: nat, frac: real): int
  {
    Min(Max(Ceil(frac * n as real) - 1, 0), n - 1)
  }

  function Percentile(sorted: seq<real>, frac: real): real
    requires sorted != []
  {
    sorted[Rank(|sorted|, frac)]
  }

  lemma RankBounds(n: nat, frac: real)
    requires n > 0 && 0.0 < frac <= 1.0
    ensures 0.0 < frac * n as real <= n as real
    ensures 1 <= Ceil(frac * n as real) <= n
  {
    var x := frac * n as real;
    assert x <= 1.0 * n as real;
    assert x > 0.0;
  }

  /** For a fraction in (0, 1] the clamp never acts. */
  lemma ClampIsNoOp(n: nat, frac: real)
    requires n > 0 && 0.0 < frac <= 1.0
    ensures Rank(n, frac) == Ceil(frac * n as real) - 1
  {
    RankBounds(n, frac);
  }

  function UpTo(v: real): real -> bool
  {
    (x: real) => x <= v
  }

  function Under(v: real): real -> bool
  {
    (x: real) => x < v
  }

  /** At least the fraction of the samples is at most `v`, less than that fraction is below it. */
  predicate NearestRank(xs: seq<real>, frac: real, v: real)
  {
    Splits(|Filter(UpTo(v), xs)|, |Filter(Under(v), xs)|, Share(frac, |xs|))
  }

  function Share(frac: real, n: nat): real
  {
    frac * n as real
  }

  predicate Splits(upTo: nat, under: nat, share: real)
  {
    upTo as real >= share && (under as real) < share
  }

  lemma CountPrefix(keep: real -> bool, xs: seq<real>, k: nat)
    requires k <= |xs|
    ensures (forall i :: 0 <= i < k ==> keep(xs[i])) ==> |Filter(keep, xs)| >= k
    ensures (forall i :: k <= i < |xs| ==> !keep(xs[i])) ==> |Filter(keep, xs)| <= k
  {
    FilterConcat(keep, xs[..k], xs[k..]);
    assert xs[..k] + xs[k..] == xs;
    if forall i :: 0 <= i < k ==> keep(xs[i]) {
      FilterAll(keep, xs[..k]);
    }
    FilterShrinks(keep, xs[..k]);
    if forall i :: k <= i < |xs| ==> !keep(xs[i]) {
      FilterNone(keep, xs[k..]);
    }
  }

  lemma {:induction false} FilterCounts(keep: real -> bool, xs: seq<real>, x: real)
    ensures multiset(Filter(keep, xs))[x] == if keep(x) then multiset(xs)[x] else 0
  {
    if xs != [] {
      var init, last := xs[..|xs| - 1], xs[|xs| - 1];
      assert xs == init + [last];
      FilterCounts(keep, init, x);
      FilterSnoc(keep, init, last);
    }
  }

  /** Counting does not depend on the order of the samples. */
  lemma CountPermuted(keep: real -> bool, xs: seq<real>, ys: seq<real>)
    requires multiset(xs) == multiset(ys)
    ensures |Filter(keep, xs)| == |Filter(keep, ys)|
  {
    forall x ensures multiset(Filter(keep, xs))[x] == multiset(Filter(keep, ys))[x] {
      FilterCounts(keep, xs, x);
      FilterCounts(keep, ys, x);
    }
    S.SameMembers(Filter(keep, xs), Filter(keep, ys));
  }

  lemma NearestRankPermuted(xs: seq<real>, ys: seq<real>, frac: real, v: real)
    requires multiset(xs) == multiset(ys)
    ensures NearestRank(xs, frac, v) <==> NearestRank(ys, frac, v)
  {
    S.SameMembers(xs, ys);
    CountPermuted(UpTo(v), xs, ys);
    CountPermuted(Under(v), xs, ys);
  }

  lemma RankIsNearest(sorted: seq<real>, frac: real)
    requires sorted != [] && S.Ordered(AtMost(), sorted) && 0.0 < frac <= 1.0
    ensures NearestRank(sorted, frac, Percentile(sorted, frac))
  {
    var n, x := |sorted|, frac * |sorted| as real;
    ClampIsNoOp(n, frac);
    RankBounds(n, frac);
    var k := Ceil(x) - 1;
    var v := sorted[k];
    forall i | 0 <= i < k + 1 ensures UpTo(v)(sorted[i]) {
      assert i == k || AtMost()(sorted[i], sorted[k]);
    }
    forall i | k <= i < n ensures !Under(v)(sorted[i]) {
      assert i == k || AtMost()(sorted[k], sorted[i]);
    }
    CountPrefix(UpTo(v), sorted, k + 1);
    CountPrefix(Under(v), sorted, k);
  }

  /** At most one number splits the samples that way. */
  lemma NearestIsUnique(xs: seq<real>, frac: real, v: real, w: real)
    requires NearestRank(xs, frac, v) && NearestRank(xs, frac, w)
    ensures v == w
  {
    FewerUnder(xs, v, w);
    FewerUnder(xs, w, v);
  }

  lemma {:induction false} FewerUnder(xs: seq<real>, v: real, w: real)
    ensures v < w ==> |Filter(UpTo(v), xs)| <= |Filter(Under(w), xs)|
  {
    if xs != [] {
      FewerUnder(xs[..|xs| - 1], v, w);
    }
  }

  /** The percentile of the sorted samples is exactly the number that splits them, and it is a sample. */
  lemma PercentileExactly(xs: seq<real>, frac: real, v: real)
    requires xs != [] && 0.0 < frac <= 1.0
    ensures v == Percentile(Sorted(xs), frac) <==> NearestRank(xs, frac, v)
    ensures Percentile(Sorted(xs), frac) in xs
  {
    var sorted := Sorted(xs);
    SortedAscends(xs);
    RankIsNearest(sorted, frac);
    NearestRankPermuted(xs, sorted, frac, Percentile(sorted, frac));
    if NearestRank(xs, frac, v) {
      NearestIsUnique(xs, frac, v, Percentile(sorted, frac));
    }
    S.SameMembers(sorted, xs);
  }

  /** A requested label: its text, and the number after the "p" if it parses. */
  datatype Request = Request(text: string, number: Option<real>)

  /** The fraction a label asks for, unless it is malformed or outside (0, 100]. */
  function Fraction(request: Request): Option<real>
  {
    match request.number
    case Some(n) => if n <= 0.0 || n > 100.0 then None else Some(n / 100.0)
    case None => None
  }

  function Valid(): Request -> bool
  {
    (r: Request) => Fraction(r).Some?
  }

  function Samples(rows: seq<Option<real>>): seq<real>
  {
    if rows == [] then []
    else Samples(rows[..|rows| - 1]) + if rows[|rows| - 1].Some? then [rows[|rows| - 1].value] else []
  }

  /** One metric per valid label, in label order, each the nearest-rank percentile of the samples. */
  ghost predicate Reports(samples: seq<real>, requests: seq<Request>, out: seq<Metric>)
  {
    ReportsAll(samples, Filter(Valid(), requests), out)
  }

  ghost predicate ReportsAll(samples: seq<real>, kept: seq<Request>, out: seq<Metric>)
  {
    |out| == |kept| && forall i :: 0 <= i < |out| ==> ReportsOne(samples, kept[i], out[i])
  }

  lemma ReportsNext(samples: seq<real>, kept: seq<Request>, request: Request, out: seq<Metric>, m: Metric)
    requires ReportsAll(samples, kept, out) && ReportsOne(samples, request, m)
    ensures ReportsAll(samples, kept + [request], out + [m])
  {
  }

  ghost predicate ReportsOne(samples: seq<real>, request: Request, m: Metric)
  {
    && request.number.Some? && 0.0 < request.number.value <= 100.0
    && m.name == "clone_duration" && m.unit == "s" && m.percentile == request.text
    && NearestRank(samples, request.number.value / 100.0, m.value)
    && m.value in samples
  }

  /** The labels reported are exactly those with a number in (0, 100]. */
  lemma LabelsReported(requests: seq<Request>, request: Request)
    ensures request in Filter(Valid(), requests)
       <==> request in requests && request.number.Some? && 0.0 < request.number.value <= 100.0
  {
    FilterMembers(Valid(), requests, request);
  }

  method ClonePercentiles(rows: seq<Option<real>>, requests: seq<Request>) returns (out: seq<Metric>)
    ensures Samples(rows) == [] ==> out == []
    ensures Samples(rows) != [] ==> Reports(Samples(rows), requests, out)
  {
    var samples: seq<real> := [];
    for n := 0 to |rows|
      invariant samples == Samples(rows[..n])
    {
      assert rows[..n + 1][..n] == rows[..n];
      if rows[n].Some? {
        samples := samples + [rows[n].value];
      }
    }
    assert rows[..|rows|] == rows;
    out := [];
    if samples == [] {
      return;
    }
    var sorted := Sorted(samples);
    for n := 0 to |requests|
      invariant Reports(samples, requests[..n], out)
    {
      assert requests[..n + 1] == requests[..n] + [requests[n]];
      FilterSnoc(Valid(), requests[..n], requests[n]);
      var frac := Fraction(requests[n]);
      if frac.Some? {
        PercentileExactly(samples, frac.value, Percentile(sorted, frac.value));
        var m := Metric("clone_duration", Percentile(sorted, frac.value), "s", requests[n].text);
        ReportsNext(samples, Filter(Valid(), requests[..n]), requests[n], out, m);
        out := out + [m];
      }
    }
    assert requests[..|requests|] == requests;
  }

  /** Permuting the rows changes no metric. */
  lemma RowOrderIrrelevant(rows: seq<Option<real>>, permuted: seq<Option<real>>, requests: seq<Request>,
                           out: seq<Metric>, other: seq<Metric>)
    requires multiset(rows) == multiset(permuted)
    requires Reports(Samples(rows), requests, out) && Reports(Samples(permuted), requests, other)
    ensures out == other
  {
    forall x ensures multiset(Samples(rows))[x] == multiset(Samples(permuted))[x] {
      SampleCounts(rows, x);
      SampleCounts(permuted, x);
    }
    forall i | 0 <= i < |out| ensures out[i] == other[i] {
      OneReport(Samples(rows), Samples(permuted), Filter(Valid(), requests)[i], out[i], other[i]);
    }
  }

  lemma OneReport(samples: seq<real>, permuted: seq<real>, request: Request, m: Metric, n: Metric)
    requires multiset(samples) == multiset(permuted)
    requires ReportsOne(samples, request, m) && ReportsOne(permuted, request, n)
    ensures m == n
  {
    var frac := request.number.value / 100.0;
    NearestRankPermuted(samples, permuted, frac, m.value);
    NearestIsUnique(permuted, frac, m.value, n.value);
  }

  lemma {:induction false} SampleCounts(rows: seq<Option<real>>, x: real)
    ensures multiset(Samples(rows))[x] == multiset(rows)[Some(x)]
  {
    if rows != [] {
      var init, last := rows[..|rows| - 1], rows[|rows| - 1];
      assert rows == init + [last];
      SampleCounts(init, x);
    }
  }

  // ---- kube-burner ------------------------------------------------------------------------------

  /** Go's conversion of a float to an integer: toward zero. */
  function Truncate(x: real): int
  {
    if x >= 0.0 then x.Floor else -(-x).Floor
  }

  lemma TruncateMonotone(x: real, y: real)
    requires x <= y
    ensures Truncate(x) <= Truncate(y)
  {
  }

  function Index(n: nat, p: real): real
  {
    p / 100.0 * n as real
  }

  /** Both accesses the rule makes are inside the list. */
  predicate InBounds(n: nat, p: real)
  {
    var i := Truncate(Index(n, p));
    n == 1 || if Index(n, p) == i as real then 0 <= i - 1 < n else 0 <= i - 1 && i < n
  }

  /** The number the rule truncates. */
  function Interpolated(sorted: seq<real>, p: real): real
    requires sorted != [] && InBounds(|sorted|, p)
  {
    var i := Truncate(Index(|sorted|, p));
    if |sorted| == 1 then sorted[0]
    else if Index(|sorted|, p) == i as real then sorted[i - 1]
    else (sorted[i - 1] + sorted[i]) / 2.0
  }

  function KubeBurnerPercentile(sorted: seq<real>, p: real): int
    requires sorted != [] && InBounds(|sorted|, p)
  {
    Truncate(Interpolated(sorted, p))
  }

  /** Toward zero: the whole number next to `x` on the side of zero. */
  lemma TruncateMeans(x: real)
    ensures x >= 0.0 ==> Truncate(x) as real <= x < Truncate(x) as real + 1.0
    ensures x <= 0.0 ==> Truncate(x) as real - 1.0 < x <= Truncate(x) as real
  {
  }

  /** The percentile of a longer list is the sample at the rank when the rank is whole, and else the mean of the
      samples around it, without its fraction; ranks count from 1. */
  lemma KubeBurnerExactly(sorted: seq<real>, p: real, k: nat)
    requires |sorted| > 1 && InBounds(|sorted|, p)
    requires k as real <= p * |sorted| as real / 100.0 < k as real + 1.0
    ensures 1 <= k <= |sorted|
    ensures p * |sorted| as real / 100.0 == k as real ==> KubeBurnerPercentile(sorted, p) == Truncate(sorted[k - 1])
    ensures p * |sorted| as real / 100.0 != k as real ==>
              k < |sorted| && KubeBurnerPercentile(sorted, p) == Truncate((sorted[k - 1] + sorted[k]) / 2.0)
  {
    assert Index(|sorted|, p) == p * |sorted| as real / 100.0;
    assert Truncate(Index(|sorted|, p)) == k;
  }

  lemma IndexGrows(n: nat, p: real, q: real)
    requires p <= q
    ensures Index(n, p) <= Index(n, q)
  {
    assert p / 100.0 <= q / 100.0;
    assert (q / 100.0 - p / 100.0) * n as real >= 0.0;
  }

  lemma SafePercentiles(n: nat, p: real)
    requires n > 0 && 50.0 <= p <= 100.0
    ensures InBounds(n, p)
  {
    IndexGrows(n, 50.0, p);
    IndexGrows(n, p, 100.0);
    assert Index(n, 100.0) == n as real;
    assert Index(n, 50.0) == n as real / 2.0;
  }

  /** The percentiles safe for every non-empty list are exactly 50 to 100; two samples already tell. */
  lemma SafeExactly(p: real)
    ensures (forall n: nat :: n > 0 ==> InBounds(n, p)) <==> 50.0 <= p <= 100.0
  {
    if 50.0 <= p <= 100.0 {
      forall n: nat | n > 0 ensures InBounds(n, p) {
        SafePercentiles(n, p);
      }
    } else {
      assert Index(2, p) == p / 50.0;
      assert !InBounds(2, p);
    }
  }

  lemma Neighbours(sorted: seq<real>, i: nat, j: nat)
    requires S.Ordered(AtMost(), sorted) && i <= j < |sorted|
    ensures sorted[i] <= sorted[j]
  {
    assert i == j || AtMost()(sorted[i], sorted[j]);
  }

  /** Every result lies between the truncated extremes. */
  lemma BetweenExtremes(sorted: seq<real>, p: real)
    requires sorted != [] && S.Ordered(AtMost(), sorted) && InBounds(|sorted|, p)
    ensures Truncate(sorted[0]) <= KubeBurnerPercentile(sorted, p) <= Truncate(sorted[|sorted| - 1])
  {
  }

  /** A higher percentile is never a smaller number. */
  lemma PercentilesAscend(sorted: seq<real>, p: real, q: real)
    requires sorted != [] && S.Ordered(AtMost(), sorted) && p <= q
    requires InBounds(|sorted|, p) && InBounds(|sorted|, q) && 0.0 <= p
    ensures KubeBurnerPercentile(sorted, p) <= KubeBurnerPercentile(sorted, q)
  {
    var n := |sorted|;
    IndexGrows(n, p, q);
    IndexGrows(n, 0.0, p);
    var i, j := Truncate(Index(n, p)), Truncate(Index(n, q));
    TruncateMonotone(Index(n, p), Index(n, q));
    if n > 1 {
      if i < j {
        Neighbours(sorted, i - 1, i);
        Neighbours(sorted, i, j - 1);
        if j < n {
          Neighbours(sorted, j - 1, j);
        }
      } else if Index(n, q) != j as real {
        Neighbours(sorted, i - 1, i);
      }
    }
    assert Interpolated(sorted, p) <= Interpolated(sorted, q);
    TruncateMonotone(Interpolated(sorted, p), Interpolated(sorted, q));
  }

  datatype Latencies = Latencies(p50: int, p95: int, p99: int, max: int)

  ghost predicate Arranges(sorted: seq<real>, rows: seq<real>)
  {
    multiset(sorted) == multiset(rows) && S.Ordered(AtMost(), sorted)
  }

  /** The emitted metrics are those of the rows in ascending order, however that order was found. */
  ghost predicate Emitted(rows: seq<real>, l: Latencies)
  {
    exists sorted :: Arranges(sorted, rows) && ReadOff(sorted, l)
  }

  predicate ReadOff(sorted: seq<real>, l: Latencies)
  {
    && sorted != [] && InBounds(|sorted|, 50.0) && InBounds(|sorted|, 95.0) && InBounds(|sorted|, 99.0)
    && l.p50 == KubeBurnerPercentile(sorted, 50.0)
    && l.p95 == KubeBurnerPercentile(sorted, 95.0)
    && l.p99 == KubeBurnerPercentile(sorted, 99.0)
    && l.max == Truncate(sorted[|sorted| - 1])
  }

  /** The emitted latency metrics never read outside the list, ascend, and none of the rows lies above `max`. */
  method SnapshotReadyMetrics(rows: seq<real>) returns (p50: int, p95: int, p99: int, max: int)
    requires rows != []
    ensures Emitted(rows, Latencies(p50, p95, p99, max))
    ensures p50 <= p95 <= p99 <= max
    ensures (exists x :: x in rows && max == Truncate(x)) && forall x :: x in rows ==> Truncate(x) <= max
  {
    var latencies: seq<real> := [];
    for n := 0 to |rows|
      invariant latencies == rows[..n]
    {
      latencies := latencies + [rows[n]];
    }
    latencies := Sorted(latencies);
    assert rows[..|rows|] == rows;
    SortedAscends(rows);
    SafePercentiles(|rows|, 50.0);
    SafePercentiles(|rows|, 95.0);
    SafePercentiles(|rows|, 99.0);
    p50 := KubeBurnerPercentile(latencies, 50.0);
    p95 := KubeBurnerPercentile(latencies, 95.0);
    p99 := KubeBurnerPercentile(latencies, 99.0);
    max := Truncate(latencies[|latencies| - 1]);
    PercentilesAscend(latencies, 50.0, 95.0);
    PercentilesAscend(latencies, 95.0, 99.0);
    BetweenExtremes(latencies, 50.0);
    BetweenExtremes(latencies, 99.0);
    NoneAboveLast(rows, latencies);
    assert Arranges(latencies, rows) && ReadOff(latencies, Latencies(p50, p95, p99, max));
  }

  lemma NoneAboveLast(rows: seq<real>, sorted: seq<real>)
    requires sorted != [] && S.Ordered(AtMost(), sorted) && multiset(rows) == multiset(sorted)
    ensures sorted[|sorted| - 1] in rows
    ensures forall x :: x in rows ==> Truncate(x) <= Truncate(sorted[|sorted| - 1])
  {
    S.SameMembers(sorted, rows);
    forall x | x in rows ensures Truncate(x) <= Truncate(sorted[|sorted| - 1]) {
      var i :| 0 <= i < |sorted| && sorted[i] == x;
      Neighbours(sorted, i, |sorted| - 1);
      TruncateMonotone(x, sorted[|sorted| - 1]);
    }
  }

  lemma ArrangedAlike(rows: seq<real>, permuted: seq<real>, xs: seq<real>, ys: seq<real>)
    requires multiset(rows) == multiset(permuted) && Arranges(xs, rows) && Arranges(ys, permuted)
    ensures xs == ys
  {
    assert S.Antisymmetric(AtMost());
    S.OrderedUnique(AtMost(), xs, ys);
  }

  lemma ReadOffAlike(sorted: seq<real>, l: Latencies, other: Latencies)
    requires ReadOff(sorted, l) && ReadOff(sorted, other)
    ensures l == other
  {
  }

  /** The order in which the rows were read changes none of the four metrics. */
  lemma LatenciesPermuted(rows: seq<real>, permuted: seq<real>, l: Latencies, other: Latencies)
    requires multiset(rows) == multiset(permuted)
    requires Emitted(rows, l) && Emitted(permuted, other)
    ensures l == other
  {
    var xs :| Arranges(xs, rows) && ReadOff(xs, l);
    var ys :| Arranges(ys, permuted) && ReadOff(ys, other);
    ArrangedAlike(rows, permuted, xs, ys);
    ReadOffAlike(xs, l, other);
  }
}
