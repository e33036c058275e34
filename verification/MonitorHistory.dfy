/** Monitoring history: the bucketed query of the panel and the grid on which the chart draws it.
    Timestamps are in milliseconds since the epoch. */
module MonitorHistory {
  import opened Basics

  datatype Range = Hour | SixHours | Day | Week

  datatype Window = Window(length: nat, bucket: nat)

  function WindowOf(range: Range): Window {
    match range
    case Hour => Window(3_600_000, 5_000)
    case SixHours => Window(21_600_000, 30_000)
    case Day => Window(86_400_000, 120_000)
    case Week => Window(604_800_000, 900_000)
  }

  /** The ranges are one, six and twenty-four hours and seven days, cut into 720 buckets, the week
      into 672. */
  lemma WindowsOfRanges()
    ensures WindowOf(Hour).length == 3_600_000 && WindowOf(SixHours).length == 6 * 3_600_000
    ensures WindowOf(Day).length == 24 * 3_600_000 && WindowOf(Week).length == 7 * 24 * 3_600_000
    ensures forall range | range != Week :: WindowOf(range).length == 720 * WindowOf(range).bucket
    ensures WindowOf(Week).length == 672 * WindowOf(Week).bucket
  {
  }

  /** A stored sample; cpu is null until the first rate is known. */
  datatype Sample = Sample(at: int, cpu: Option<real>)

  /** One row of the query: the bucket's timestamp and the samples grouped under it. */
  datatype Point = Point(at: int, group: seq<Sample>)

  predicate InWindow(s: Sample, since: int, until: int) { since <= s.at <= until }

  function BucketOf(at: int, bucket: nat): int
    requires bucket > 0
  {
    at / bucket * bucket
  }

  function Grouped(rows: seq<Sample>, since: int, until: int, bucket: nat, at: int): seq<Sample>
    requires bucket > 0
  {
    if rows == [] then []
    else
      var rest := Grouped(rows[..|rows| - 1], since, until, bucket, at);
      var last := rows[|rows| - 1];
      if InWindow(last, since, until) && BucketOf(last.at, bucket) == at then rest + [last] else rest
  }

  /** The result of the bucket query before LIMIT: one point for every bucket that has a sample in
      the window, in ascending order. */
  ghost predicate Answers(points: seq<Point>, rows: seq<Sample>, since: int, until: int, bucket: nat)
    requires bucket > 0
  {
    && (forall i, j | 0 <= i < j < |points| :: points[i].at < points[j].at)
    && (forall i | 0 <= i < |points| ::
          points[i].group == Grouped(rows, since, until, bucket, points[i].at)
          && points[i].group != [])
    && (forall k | 0 <= k < |rows| && since <= rows[k].at <= until ::
          exists i | 0 <= i < |points| :: points[i].at == BucketOf(rows[k].at, bucket))
  }

  lemma {:induction false} GroupMembers(
    rows: seq<Sample>, since: int, until: int, bucket: nat, at: int)
    requires bucket > 0
    ensures forall s <- Grouped(rows, since, until, bucket, at) ::
              since <= s.at <= until && BucketOf(s.at, bucket) == at
  {
    if rows != [] {
      GroupMembers(rows[..|rows| - 1], since, until, bucket, at);
    }
  }

  /** A sample of the window is in its bucket's group. */
  lemma {:induction false} Grouping(
    rows: seq<Sample>, since: int, until: int, bucket: nat, k: nat)
    requires bucket > 0 && k < |rows| && InWindow(rows[k], since, until)
    ensures rows[k] in Grouped(rows, since, until, bucket, BucketOf(rows[k].at, bucket))
  {
    if k < |rows| - 1 {
      Grouping(rows[..|rows| - 1], since, until, bucket, k);
    }
  }

  /** Every sample of the window in a bucket before this one has its point. */
  ghost predicate CoveredBefore(
    points: seq<Point>, rows: seq<Sample>, since: int, until: int, bucket: nat, next: int)
    requires bucket > 0
  {
    forall k | 0 <= k < |rows| && InWindow(rows[k], since, until)
               && BucketOf(rows[k].at, bucket) < next ::
      exists i | 0 <= i < |points| :: points[i].at == BucketOf(rows[k].at, bucket)
  }

  /** Two multiples of the bucket less than a bucket apart are the same. */
  lemma SameBucket(p: int, q: int, bucket: nat)
    requires bucket > 0 && q * bucket <= p * bucket < q * bucket + bucket
    ensures p == q
  {
    if p > q {
      TimesAtMost(q + 1, p, bucket);
    } else if p < q {
      TimesAtMost(p + 1, q, bucket);
    }
  }

  lemma NextCovered(points: seq<Point>, more: seq<Point>, rows: seq<Sample>, since: int, until: int,
                    bucket: nat, q: int)
    requires bucket > 0 && CoveredBefore(points, rows, since, until, bucket, q * bucket)
    requires points <= more
    requires var group := Grouped(rows, since, until, bucket, q * bucket);
             group == [] || exists i | 0 <= i < |more| :: more[i].at == q * bucket
    ensures CoveredBefore(more, rows, since, until, bucket, q * bucket + bucket)
  {
    forall k | 0 <= k < |rows| && InWindow(rows[k], since, until)
               && BucketOf(rows[k].at, bucket) < q * bucket + bucket
      ensures exists i | 0 <= i < |more| :: more[i].at == BucketOf(rows[k].at, bucket)
    {
      var at := BucketOf(rows[k].at, bucket);
      if at < q * bucket {
        var i :| 0 <= i < |points| && points[i].at == at;
        assert more[i].at == at;
      } else {
        SameBucket(rows[k].at / bucket, q, bucket);
        Grouping(rows, since, until, bucket, k);
      }
    }
  }

  /** An answer to the query for every table, range and time: one point for each bucket of the window
      that has a sample. */
  method BucketQuery(rows: seq<Sample>, since: int, until: int, bucket: nat)
    returns (points: seq<Point>)
    requires bucket > 0
    ensures Answers(points, rows, since, until, bucket)
  {
    points := [];
    var q := since / bucket;
    forall k | 0 <= k < |rows| && InWindow(rows[k], since, until)
      ensures q * bucket <= BucketOf(rows[k].at, bucket) <= until
    {
      BucketFacts(since, rows[k].at, bucket);
    }
    while q * bucket <= until
      invariant q >= since / bucket
      invariant forall i, j | 0 <= i < j < |points| :: points[i].at < points[j].at
      invariant forall i | 0 <= i < |points| ::
                  points[i].at < q * bucket && points[i].group != []
                  && points[i].group == Grouped(rows, since, until, bucket, points[i].at)
      invariant CoveredBefore(points, rows, since, until, bucket, q * bucket)
      decreases until - q * bucket
    {
      ghost var before := points;
      var group := Grouped(rows, since, until, bucket, q * bucket);
      if group != [] {
        points := points + [Point(q * bucket, group)];
        assert points[|before|].at == q * bucket;
      }
      NextCovered(before, points, rows, since, until, bucket, q);
      assert (q + 1) * bucket == q * bucket + bucket;
      q := q + 1;
    }
  }

  /** A group's timestamp is a multiple of the bucket between the first bucket and the end. */
  lemma PointOnGrid(points: seq<Point>, rows: seq<Sample>, since: int, until: int, bucket: nat, i: nat)
    requires bucket > 0 && Answers(points, rows, since, until, bucket) && i < |points|
    ensures points[i].at == points[i].at / bucket * bucket
    ensures BucketOf(since, bucket) <= points[i].at <= until
  {
    GroupMembers(rows, since, until, bucket, points[i].at);
    var s := points[i].group[0];
    assert s in points[i].group;
    BucketFacts(since, s.at, bucket);
  }

  lemma BucketFacts(since: int, at: int, bucket: nat)
    requires bucket > 0 && since <= at
    ensures BucketOf(since, bucket) <= BucketOf(at, bucket) <= at
    ensures BucketOf(at, bucket) == BucketOf(at, bucket) / bucket * bucket
  {
    Monotone(since, at, bucket);
    var q := at / bucket;
    assert at == q * bucket + at % bucket;
    QuotientIs(q * bucket, bucket, q);
  }

  lemma TimesAtMost(x: int, y: int, k: nat)
    requires x <= y
    ensures x * k <= y * k
  {
    assert (y - x) * k >= 0;
  }

  lemma QuotientIs(x: int, k: nat, q: int)
    requires k > 0 && q * k <= x < q * k + k
    ensures x / k == q
  {
    var d := x / k;
    assert x == d * k + x % k;
    if d > q {
      TimesAtMost(q + 1, d, k);
    } else if d < q {
      TimesAtMost(d + 1, q, k);
    }
  }

  lemma Monotone(x: int, y: int, k: nat)
    requires k > 0 && x <= y
    ensures x / k <= y / k && x / k * k <= y / k * k
  {
    var p, q := x / k, y / k;
    assert x == p * k + x % k && y == q * k + y % k;
    if p > q {
      TimesAtMost(q + 1, p, k);
    } else {
      TimesAtMost(p, q, k);
    }
  }

  predicate Drawn(points: seq<Point>, at: int, hit: Option<nat>) {
    match hit
    case Some(i) => i < |points| && points[i].at == at
    case None => forall i | 0 <= i < |points| :: points[i].at != at
  }

  /** The chart's loop: one value per grid step, null where the lookup has no point. */
  method Series(points: seq<Point>, since: int, until: int, bucket: nat)
    returns (values: seq<(int, Option<nat>)>)
    requires bucket > 0 && since <= until
    ensures |values| == (until - BucketOf(since, bucket)) / bucket + 1
    ensures forall k | 0 <= k < |values| ::
              values[k].0 == BucketOf(since, bucket) + k * bucket
              && Drawn(points, values[k].0, values[k].1)
  {
    var start := BucketOf(since, bucket);
    var t := start;
    values := [];
    BucketFacts(since, since, bucket);
    while t <= until
      invariant t == start + |values| * bucket && t <= until + bucket
      invariant forall k | 0 <= k < |values| ::
                  values[k].0 == start + k * bucket && Drawn(points, values[k].0, values[k].1)
      decreases until + bucket - t
    {
      var hit := Lookup(points, t);
      values := values + [(t, hit)];
      assert |values| * bucket == (|values| - 1) * bucket + bucket;
      t := t + bucket;
    }
    QuotientIs(until - start, bucket, |values| - 1);
  }

  method Lookup(points: seq<Point>, at: int) returns (hit: Option<nat>)
    ensures Drawn(points, at, hit)
  {
    for i := 0 to |points|
      invariant forall j | 0 <= j < i :: points[j].at != at
    {
      if points[i].at == at {
        return Some(i);
      }
    }
    hit := None;
  }

  /** Every point of the answer is drawn at exactly one step of the grid. */
  lemma EveryPointIsOnTheGrid(
    points: seq<Point>, rows: seq<Sample>, since: int, until: int, bucket: nat, i: nat)
    requires bucket > 0 && since <= until
    requires Answers(points, rows, since, until, bucket) && i < |points|
    ensures exists k: nat ::
              && k <= (until - BucketOf(since, bucket)) / bucket
              && points[i].at == BucketOf(since, bucket) + k * bucket
              && forall j: nat | j != k :: BucketOf(since, bucket) + j * bucket != points[i].at
  {
    PointOnGrid(points, rows, since, until, bucket, i);
    var first, here := since / bucket, points[i].at / bucket;
    Monotone(BucketOf(since, bucket), points[i].at, bucket);
    BucketFacts(since, since, bucket);
    QuotientIs(first * bucket, bucket, first);
    var k := here - first;
    assert points[i].at == first * bucket + k * bucket;
    assert k * bucket <= until - first * bucket;
    Monotone(k * bucket, until - first * bucket, bucket);
    QuotientIs(k * bucket, bucket, k);
    forall j: nat | j != k ensures first * bucket + j * bucket != points[i].at {
      if j < k { TimesAtMost(j + 1, k, bucket); } else { TimesAtMost(k + 1, j, bucket); }
    }
  }

  lemma {:induction false} PointsAreSpaced(
    points: seq<Point>, low: int, bucket: nat)
    requires bucket > 0 && low % bucket == 0
    requires forall i, j | 0 <= i < j < |points| :: points[i].at < points[j].at
    requires forall i | 0 <= i < |points| :: low <= points[i].at && points[i].at % bucket == 0
    ensures |points| > 0 ==> points[|points| - 1].at >= low + (|points| - 1) * bucket
  {
    if |points| > 1 {
      var n := |points| - 1;
      PointsAreSpaced(points[..n], low, bucket);
      var p, q := points[n - 1].at / bucket, points[n].at / bucket;
      assert points[n - 1].at == p * bucket && points[n].at == q * bucket;
      if q <= p {
        TimesAtMost(q, p, bucket);
      }
      TimesAtMost(p + 1, q, bucket);
      assert n * bucket == (n - 1) * bucket + bucket;
    }
  }

  lemma AtMostOnePointPerStep(
    points: seq<Point>, rows: seq<Sample>, since: int, until: int, bucket: nat)
    requires bucket > 0 && since <= until && Answers(points, rows, since, until, bucket)
    ensures |points| <= (until - BucketOf(since, bucket)) / bucket + 1
  {
    var low := BucketOf(since, bucket);
    BucketFacts(since, since, bucket);
    QuotientIs(low, bucket, since / bucket);
    assert low % bucket == 0;
    forall i | 0 <= i < |points|
      ensures low <= points[i].at <= until && points[i].at % bucket == 0
    {
      PointOnGrid(points, rows, since, until, bucket, i);
      MultipleOf(points[i].at, bucket);
    }
    PointsAreSpaced(points, low, bucket);
    if |points| > 0 {
      StepsFit(|points| - 1, until - low, bucket);
    } else {
      Monotone(0, until - low, bucket);
    }
  }

  lemma MultipleOf(x: int, bucket: nat)
    requires bucket > 0 && x == x / bucket * bucket
    ensures x % bucket == 0
  {
  }

  lemma StepsFit(n: nat, span: int, bucket: nat)
    requires bucket > 0 && n * bucket <= span
    ensures n <= span / bucket
  {
    Monotone(n * bucket, span, bucket);
    QuotientIs(n * bucket, bucket, n);
  }

  lemma GridSize(range: Range, until: int)
    ensures var w := WindowOf(range);
            (until - BucketOf(until - w.length, w.bucket)) / w.bucket + 1 <= 721
  {
  }

  /** For every range, every time and every table the query has at most 721 groups, one per step
      of the chart's grid, so its LIMIT never cuts anything off. */
  lemma QueryIsNeverTruncated(points: seq<Point>, rows: seq<Sample>, range: Range, until: int)
    requires var w := WindowOf(range); Answers(points, rows, until - w.length, until, w.bucket)
    ensures |points| <= 721 <= 1500
  {
    var w := WindowOf(range);
    AtMostOnePointPerStep(points, rows, until - w.length, until, w.bucket);
    GridSize(range, until);
  }

  // ------------------------------------------------------------ no sample is lost or doubled

  function CountInWindow(rows: seq<Sample>, since: int, until: int): nat {
    if rows == [] then 0
    else
      CountInWindow(rows[..|rows| - 1], since, until)
      + if InWindow(rows[|rows| - 1], since, until) then 1 else 0
  }

  function SumOfGroups(ats: seq<int>, rows: seq<Sample>, since: int, until: int, bucket: nat): nat
    requires bucket > 0
  {
    if ats == [] then 0
    else
      SumOfGroups(ats[..|ats| - 1], rows, since, until, bucket)
      + |Grouped(rows, since, until, bucket, ats[|ats| - 1])|
  }

  lemma {:induction false} OneMoreRow(
    ats: seq<int>, rows: seq<Sample>, since: int, until: int, bucket: nat)
    requires bucket > 0 && rows != []
    requires forall i, j | 0 <= i < j < |ats| :: ats[i] < ats[j]
    ensures var last := rows[|rows| - 1];
            SumOfGroups(ats, rows, since, until, bucket)
            == SumOfGroups(ats, rows[..|rows| - 1], since, until, bucket)
               + if InWindow(last, since, until) && BucketOf(last.at, bucket) in ats then 1 else 0
  {
    if ats != [] {
      var front, at := ats[..|ats| - 1], ats[|ats| - 1];
      OneMoreRow(front, rows, since, until, bucket);
      assert ats == front + [at];
      assert at !in front;
    }
  }

  lemma {:induction false} GroupsCoverWindow(
    ats: seq<int>, rows: seq<Sample>, since: int, until: int, bucket: nat)
    requires bucket > 0
    requires forall i, j | 0 <= i < j < |ats| :: ats[i] < ats[j]
    requires forall k | 0 <= k < |rows| && InWindow(rows[k], since, until) ::
               BucketOf(rows[k].at, bucket) in ats
    ensures SumOfGroups(ats, rows, since, until, bucket) == CountInWindow(rows, since, until)
  {
    if rows == [] {
      EmptyGroups(ats, since, until, bucket);
    } else {
      OneMoreRow(ats, rows, since, until, bucket);
      GroupsCoverWindow(ats, rows[..|rows| - 1], since, until, bucket);
    }
  }

  lemma {:induction false} EmptyGroups(ats: seq<int>, since: int, until: int, bucket: nat)
    requires bucket > 0
    ensures SumOfGroups(ats, [], since, until, bucket) == 0
  {
    if ats != [] {
      EmptyGroups(ats[..|ats| - 1], since, until, bucket);
    }
  }

  /** Conservation: the groups of the answer hold every sample of the window exactly once. */
  lemma AnswerHoldsEverySample(
    points: seq<Point>, rows: seq<Sample>, since: int, until: int, bucket: nat)
    requires bucket > 0 && Answers(points, rows, since, until, bucket)
    ensures var ats := seq(|points|, i requires 0 <= i < |points| => points[i].at);
            SumOfGroups(ats, rows, since, until, bucket) == CountInWindow(rows, since, until)
  {
    var ats := seq(|points|, i requires 0 <= i < |points| => points[i].at);
    forall k | 0 <= k < |rows| && InWindow(rows[k], since, until)
      ensures BucketOf(rows[k].at, bucket) in ats
    {
      var i :| 0 <= i < |points| && points[i].at == BucketOf(rows[k].at, bucket);
      assert ats[i] == points[i].at;
    }
    GroupsCoverWindow(ats, rows, since, until, bucket);
  }
}
