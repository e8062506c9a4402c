/** Peak concurrency of a set of timed findings, by one sweep over their end points
    (core/eval/multiagent_parallel_benchmark.py). */
module OverlapSweep {
  import opened Basics
  import opened Sorting

  datatype Finding = Finding(started: real, finished: real)

  datatype Point = Point(at: real, delta: int)

  /** An opening and a closing point for each finding. */
  function Points(findings: seq<Finding>): seq<Point> {
    if findings == [] then []
    else
      var f := findings[|findings| - 1];
      Points(findings[..|findings| - 1]) + [Point(f.started, 1), Point(f.finished, -1)]
  }

  /** By time; at one instant, closings before openings. */
  predicate PointLe(a: Point, b: Point) {
    a.at < b.at || (a.at == b.at && a.delta <= b.delta)
  }

  function SweepOrder(findings: seq<Finding>): seq<Point> {
    Sort(Points(findings), PointLe)
  }

  /** How many findings are running after the first n points of the sweep. */
  function Running(points: seq<Point>, n: nat): int
    requires n <= |points|
  {
    if n == 0 then 0 else Running(points, n - 1) + points[n - 1].delta
  }

  function PeakAfter(points: seq<Point>, n: nat): (peak: int)
    requires n <= |points|
    ensures peak >= 0 && forall k :: 0 <= k <= n ==> Running(points, k) <= peak
    ensures exists k :: 0 <= k <= n && Running(points, k) == peak
  {
    if n == 0 then assert Running(points, 0) == 0; 0
    else Max(PeakAfter(points, n - 1), Running(points, n))
  }

  /** The findings running at an instant: started, and not yet finished. */
  function Overlap(findings: seq<Finding>, instant: real): nat {
    if findings == [] then 0
    else
      var f := findings[|findings| - 1];
      Overlap(findings[..|findings| - 1], instant) + if f.started <= instant < f.finished then 1 else 0
  }

  ghost predicate IsPeak(findings: seq<Finding>, peak: int) {
    && (forall t: real :: Overlap(findings, t) <= peak)
    && (exists t: real :: Overlap(findings, t) == peak)
  }

  ghost predicate WellTimed(findings: seq<Finding>) {
    forall i :: 0 <= i < |findings| ==> findings[i].started <= findings[i].finished
  }

  lemma SweepOrderIs(findings: seq<Finding>)
    ensures SweepOrder(findings) == Sort(Points(findings), PointLe)
  {
  }

  /** Counting end points counts the findings in between: every finding that has finished had started. */
  lemma {:induction false} PointsCountOverlap(findings: seq<Finding>, instant: real)
    requires WellTimed(findings)
    ensures SumUpTo(Points(findings), instant) == Overlap(findings, instant)
  {
    if findings != [] {
      var init, f := findings[..|findings| - 1], findings[|findings| - 1];
      PointsCountOverlap(init, instant);
      SumSplits(Points(init), [Point(f.started, 1), Point(f.finished, -1)], instant);
      TwoPoints(f, instant);
    }
  }

  lemma {:induction false} SumOfSort(s: seq<Point>, instant: real)
    ensures SumUpTo(Sort(s, PointLe), instant) == SumUpTo(s, instant)
  {
    if s != [] {
      var r := Sort(s[1..], PointLe);
      SumOfSort(s[1..], instant);
      SumOfInsert(s[0], r, instant);
      assert ([s[0]] + r)[1..] == r;
    }
  }

  lemma {:induction false} SumIsRunning(points: seq<Point>, n: nat, k: nat, instant: real)
    requires k <= n <= |points|
    requires forall i :: 0 <= i < n ==> (points[i].at <= instant <==> i < k)
    ensures SumUpTo(points[..n], instant) == Running(points, k)
  {
    if n > 0 {
      assert points[..n] == points[..n - 1] + [points[n - 1]];
      SumSplits(points[..n - 1], [points[n - 1]], instant);
      assert [points[n - 1]][1..] == [];
      if k == n {
        SumIsRunning(points, n - 1, n - 1, instant);
      } else {
        SumIsRunning(points, n - 1, k, instant);
      }
    }
  }

  /** The points up to an instant are a prefix of the sweep. */
  lemma PrefixAt(points: seq<Point>, instant: real) returns (k: nat)
    requires forall i, j :: 0 <= i < j < |points| ==> points[i].at <= points[j].at
    ensures k <= |points| && forall i :: 0 <= i < |points| ==> (points[i].at <= instant <==> i < k)
  {
    k := 0;
    while k < |points| && points[k].at <= instant
      invariant k <= |points| && forall i :: 0 <= i < k ==> points[i].at <= instant
    {
      k := k + 1;
    }
  }

  lemma SweepSorted(findings: seq<Finding>)
    ensures forall i, j :: 0 <= i < j < |SweepOrder(findings)| ==> PointLe(SweepOrder(findings)[i], SweepOrder(findings)[j])
    ensures forall i :: 0 <= i < |SweepOrder(findings)| ==> SweepOrder(findings)[i].delta in {-1, 1}
  {
    SortSorts(Points(findings), PointLe);
    SortMembers(Points(findings), PointLe);
    Deltas(findings);
    forall i | 0 <= i < |SweepOrder(findings)| ensures SweepOrder(findings)[i].delta in {-1, 1} {
      assert SweepOrder(findings)[i] in Points(findings);
    }
  }

  /** At every instant, what runs is what the sweep has after the points up to that instant. */
  lemma OverlapIsReached(findings: seq<Finding>, instant: real) returns (k: nat)
    requires WellTimed(findings)
    ensures k <= |SweepOrder(findings)| && Running(SweepOrder(findings), k) == Overlap(findings, instant)
    ensures forall i :: 0 <= i < |SweepOrder(findings)| ==> (SweepOrder(findings)[i].at <= instant <==> i < k)
  {
    var points := SweepOrder(findings);
    SweepSorted(findings);
    k := PrefixAt(points, instant);
    SumIsRunning(points, |points|, k, instant);
    assert points[..|points|] == points;
    SumOfSort(Points(findings), instant);
    PointsCountOverlap(findings, instant);
  }

  lemma {:induction false} RunningRises(points: seq<Point>, m: nat, n: nat)
    requires m <= n <= |points| && forall i :: m <= i < n ==> points[i].delta >= 0
    ensures Running(points, m) <= Running(points, n)
  {
    if m < n {
      RunningRises(points, m, n - 1);
    }
  }

  /** After each point the sweep counts no more than really run at some instant. */
  lemma {:induction false} RunningIsOverlap(findings: seq<Finding>, n: nat) returns (instant: real)
    requires WellTimed(findings) && n <= |SweepOrder(findings)|
    ensures Running(SweepOrder(findings), n) <= Overlap(findings, instant)
  {
    hide SweepOrder;
    var points := SweepOrder(findings);
    SweepSorted(findings);
    if n == 0 {
      instant := 0.0;
    } else if points[n - 1].delta == -1 {
      instant := RunningIsOverlap(findings, n - 1);
    } else {
      instant := points[n - 1].at;
      var k := OverlapIsReached(findings, instant);
      assert n <= k;
      forall i | n <= i < k ensures points[i].delta >= 0 {
        assert PointLe(points[n - 1], points[i]);
      }
      RunningRises(points, n, k);
    }
  }

  /** The swept peak is the maximum number of findings running at one time. */
  lemma SweepFindsPeak(findings: seq<Finding>)
    requires WellTimed(findings)
    ensures IsPeak(findings, PeakAfter(SweepOrder(findings), |SweepOrder(findings)|))
  {
    hide SweepOrder;
    var points := SweepOrder(findings);
    var peak := PeakAfter(points, |points|);
    forall t: real ensures Overlap(findings, t) <= peak {
      var k := OverlapIsReached(findings, t);
    }
    var k :| 0 <= k <= |points| && Running(points, k) == peak;
    var t := RunningIsOverlap(findings, k);
    assert Overlap(findings, t) == peak;
  }

  method PeakOverlap(findings: seq<Finding>) returns (peak: int)
    ensures peak == PeakAfter(SweepOrder(findings), |SweepOrder(findings)|)
    ensures WellTimed(findings) ==> IsPeak(findings, peak)
  {
    hide SweepOrder, PointLe;
    var points: seq<Point> := [];
    for i := 0 to |findings|
      invariant points == Points(findings[..i])
    {
      assert findings[..i + 1][..i] == findings[..i];
      points := points + [Point(findings[i].started, 1)];
      points := points + [Point(findings[i].finished, -1)];
    }
    assert findings[..|findings|] == findings;
    SweepOrderIs(findings);
    var sorted := Sort(points, PointLe);
    var active := 0;
    peak := 0;
    for n := 0 to |sorted|
      invariant active == Running(sorted, n)
      invariant peak == PeakAfter(sorted, n)
    {
      active := active + sorted[n].delta;
      peak := Max(peak, active);
    }
    if WellTimed(findings) {
      SweepFindsPeak(findings);
    }
  }

  // ---- why the sweep is right ----

  /** Sum of the points up to an instant, whatever their order. */
  function SumUpTo(points: seq<Point>, instant: real): int {
    if points == [] then 0
    else (if points[0].at <= instant then points[0].delta else 0) + SumUpTo(points[1..], instant)
  }

  lemma {:induction false} SumSplits(a: seq<Point>, b: seq<Point>, instant: real)
    ensures SumUpTo(a + b, instant) == SumUpTo(a, instant) + SumUpTo(b, instant)
  {
    if a == [] {
      assert a + b == b;
    } else {
      assert (a + b)[0] == a[0] && (a + b)[1..] == a[1..] + b;
      SumSplits(a[1..], b, instant);
    }
  }

  lemma SumOfOne(p: Point, instant: real)
    ensures SumUpTo([p], instant) == if p.at <= instant then p.delta else 0
  {
    assert [p][1..] == [];
  }

  lemma TwoPoints(f: Finding, instant: real)
    requires f.started <= f.finished
    ensures SumUpTo([Point(f.started, 1), Point(f.finished, -1)], instant) == if f.started <= instant < f.finished then 1 else 0
  {
    var open, close := Point(f.started, 1), Point(f.finished, -1);
    assert [open, close] == [open] + [close];
    SumSplits([open], [close], instant);
    SumOfOne(open, instant);
    SumOfOne(close, instant);
  }

  lemma {:induction false} SumOfInsert(x: Point, s: seq<Point>, instant: real)
    ensures SumUpTo(Insert(x, s, PointLe), instant) == SumUpTo([x] + s, instant)
  {
    assert ([x] + s)[1..] == s;
    if s != [] && !PointLe(x, s[0]) {
      SumOfInsert(x, s[1..], instant);
      assert ([x] + s[1..])[1..] == s[1..];
      var r := Insert(x, s[1..], PointLe);
      assert ([s[0]] + r)[1..] == r;
    }
  }

  lemma {:induction false} Deltas(findings: seq<Finding>)
    ensures forall p :: p in Points(findings) ==> p.delta in {-1, 1}
  {
    if findings != [] {
      Deltas(findings[..|findings| - 1]);
    }
  }
}
