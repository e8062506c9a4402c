/** Hodges-Lehmann estimate and exact signed-rank inversion interval (core/eval/memory_ablation.py),
    in exact arithmetic. */
module SignedRank {
  import opened Basics
  import opened Sorting
  import opened SubsetSums
  import opened Ranks

  datatype Report = Report(
    hodgesLehmann: Option<real>, interval: Option<(real, real)>, pValue: Option<real>, effectiveN: nat)

  // ---- pairwise averages ----

  function WalshRow(values: seq<real>, i: nat): seq<real>
    requires i <= |values|
  {
    seq(|values| - i, k requires 0 <= k < |values| - i => (values[i] + values[i + k]) / 2.0)
  }

  /** Averages of all pairs i <= j, from row i on. */
  function Walsh(values: seq<real>, i: nat): seq<real>
    requires i <= |values|
    decreases |values| - i
  {
    if i == |values| then [] else WalshRow(values, i) + Walsh(values, i + 1)
  }

  function SortedWalsh(values: seq<real>): seq<real> {
    Sort(Walsh(values, 0), (a: real, b: real) => a <= b)
  }

  /** statistics.median of an ascending list. */
  function Median(s: seq<real>): real
    requires s != []
  {
    var n := |s|;
    if n % 2 == 1 then s[n / 2] else (s[n / 2 - 1] + s[n / 2]) / 2.0
  }

  // ---- the test ----

  function Nonzero(values: seq<real>): seq<real> {
    Filter((x: real) => x != 0.0, values)
  }

  function Abs(x: real): real {
    if x < 0.0 then -x else x
  }

  function Magnitudes(values: seq<real>): seq<real> {
    seq(|values|, i requires 0 <= i < |values| => Abs(values[i]))
  }

  /** The doubled ranks of the nonzero differences, and which of them are positive. */
  function Steps(values: seq<real>): seq<nat> {
    DoubledRanks(Magnitudes(Nonzero(values)))
  }

  function Signs(values: seq<real>): seq<bool> {
    var x := Nonzero(values);
    seq(|x|, i requires 0 <= i < |x| => x[i] > 0.0)
  }

  function Observed(values: seq<real>): nat {
    SumTrue(Steps(values), Signs(values))
  }

  ghost predicate Reachable(steps: seq<nat>, score: int) {
    Hits(steps, score) != {}
  }

  /** At most 2.5% of all sign assignments score this low. */
  ghost predicate InTail(steps: seq<nat>, score: int) {
    40 * |AtMost(steps, score)| <= Pow2(|steps|)
  }

  /** The largest reachable score in the lower 2.5% tail, if there is one. */
  ghost predicate IsCritical(steps: seq<nat>, c: Option<nat>) {
    match c
    case Some(score) =>
      && Reachable(steps, score) && InTail(steps, score)
      && forall t :: t > score && Reachable(steps, t) ==> !InTail(steps, t)
    case None => forall t :: Reachable(steps, t) ==> !InTail(steps, t)
  }

  function IntervalAt(walsh: seq<real>, c: Option<nat>): Option<(real, real)>
    requires walsh != []
  {
    match c
    case None => None
    case Some(score) =>
      var critical := score / 2;
      Some((walsh[Min(critical, |walsh| - 1)], walsh[Max(0, |walsh| - critical - 1)]))
  }

  lemma {:induction false} Pow2Positive(n: nat)
    ensures Pow2(n) > 0
  {
    if n > 0 {
      Pow2Positive(n - 1);
    }
  }

  ghost function PValue(steps: seq<nat>, observed: int): real {
    Pow2Positive(|steps|);
    var lower, upper := |AtMost(steps, observed)|, |AtLeast(steps, observed)|;
    var tail := 2.0 * Min(lower, upper) as real / Pow2(|steps|) as real;
    if tail < 1.0 then tail else 1.0
  }

  lemma {:induction false} WalshLength(values: seq<real>, i: nat)
    requires i <= |values|
    ensures 2 * |Walsh(values, i)| == (|values| - i) * (|values| - i + 1)
    decreases |values| - i
  {
    if i < |values| {
      WalshLength(values, i + 1);
      var m := |values| - i;
      assert (m - 1) * m + 2 * m == m * (m + 1);
    }
  }

  ghost predicate IsReport(values: seq<real>, r: Report) {
    WalshLength(values, 0);
    if values == [] then r == Report(None, None, None, 0)
    else if Nonzero(values) == [] then r == Report(Some(0.0), Some((0.0, 0.0)), Some(1.0), 0)
    else
      var walsh := SortedWalsh(values);
      && walsh != []
      && r.hodgesLehmann == Some(Median(walsh))
      && r.pValue == Some(PValue(Steps(values), Observed(values)))
      && r.effectiveN == |Nonzero(values)|
      && exists c :: IsCritical(Steps(values), c) && r.interval == IntervalAt(walsh, c)
  }

  lemma SortedWalshFacts(values: seq<real>)
    ensures 2 * |SortedWalsh(values)| == |values| * (|values| + 1)
    ensures forall i, j :: 0 <= i <= j < |SortedWalsh(values)| ==> SortedWalsh(values)[i] <= SortedWalsh(values)[j]
  {
    hide Walsh;
    var le := (a: real, b: real) => a <= b;
    WalshLength(values, 0);
    SortPermutes(Walsh(values, 0), le);
    SortSorts(Walsh(values, 0), le);
    var s := SortedWalsh(values);
    forall i, j | 0 <= i <= j < |s| ensures s[i] <= s[j] {
      if i < j {
        assert le(s[i], s[j]);
      }
    }
  }

  // ---- the computation ----

  lemma NoneBelow(steps: seq<nat>)
    ensures |AtMost(steps, -1)| == 0
    ensures forall t :: t < 0 ==> !Reachable(steps, t)
  {
    forall s ensures s !in AtMost(steps, -1) {
      WhereMember(steps, x => x <= -1, s);
    }
    assert AtMost(steps, -1) == {};
    forall t | t < 0 ensures Hits(steps, t) == {} {
      forall s ensures s !in Hits(steps, t) {
        HitsMember(steps, t, s);
      }
    }
  }

  lemma Unreachable(steps: seq<nat>, t: int)
    requires t > SumAll(steps)
    ensures !Reachable(steps, t)
  {
    forall s ensures s !in Hits(steps, t) {
      HitsMember(steps, t, s);
      if |s| == |steps| {
        SumBounded(steps, s);
      }
    }
  }

  lemma OneMoreScore(steps: seq<nat>, m: map<int, nat>, score: int)
    requires IsDistribution(steps, m)
    ensures |AtMost(steps, score)| == |AtMost(steps, score - 1)| + Get(m, score)
    ensures score in m <==> Reachable(steps, score)
  {
    assert Entry(steps, m, score);
    var a, h := AtMost(steps, score - 1), Hits(steps, score);
    assert AtMost(steps, score) == a + h;
    assert a !! h;
  }

  lemma TailTest(steps: seq<nat>, count: nat, score: int)
    requires count == |AtMost(steps, score)|
    ensures Pow2(|steps|) > 0
    ensures count as real / Pow2(|steps|) as real <= 0.025 <==> InTail(steps, score)
  {
    hide AtMost, Pow2;
    Pow2Positive(|steps|);
    QuotientOrder(count as real, Pow2(|steps|) as real, 0.025);
  }

  lemma SubsetCounts(a: set<seq<bool>>, b: set<seq<bool>>)
    requires a <= b
    ensures |a| <= |b|
  {
    assert b == a + (b - a);
  }

  lemma TailShrinks(steps: seq<nat>, s: int, t: int)
    requires s <= t && !InTail(steps, s)
    ensures !InTail(steps, t)
  {
    assert AtMost(steps, s) <= AtMost(steps, t);
    SubsetCounts(AtMost(steps, s), AtMost(steps, t));
  }

  method Critical(steps: seq<nat>, distribution: map<int, nat>, total: nat) returns (critical: Option<nat>)
    requires IsDistribution(steps, distribution) && total == SumAll(steps)
    ensures IsCritical(steps, critical)
  {
    hide AtMost, IsDistribution, InTail, Reachable;
    critical := None;
    var cumulative := 0;
    NoneBelow(steps);
    for score := 0 to total + 1
      invariant cumulative == |AtMost(steps, score - 1)|
      invariant critical.Some? ==> Reachable(steps, critical.value) && InTail(steps, critical.value) && critical.value < score
      invariant forall t :: t < score && Reachable(steps, t) ==> InTail(steps, t) && critical.Some? && t <= critical.value
    {
      OneMoreScore(steps, distribution, score);
      if score in distribution {
        var next := cumulative + distribution[score];
        TailTest(steps, next, score);
        if next as real / Pow2(|steps|) as real <= 0.025 {
          critical := Some(score);
          cumulative := next;
        } else {
          forall t | t >= score ensures !InTail(steps, t) {
            TailShrinks(steps, score, t);
          }
          return;
        }
      }
    }
    forall t | t > total ensures !Reachable(steps, t) {
      Unreachable(steps, t);
    }
  }

  lemma PValueIs(steps: seq<nat>, observed: int, p: real)
    requires Pow2(|steps|) > 0
    requires var tail := 2.0 * Min(|AtMost(steps, observed)|, |AtLeast(steps, observed)|) as real / Pow2(|steps|) as real;
      p == if tail < 1.0 then tail else 1.0
    ensures p == PValue(steps, observed)
  {
  }

  /** Twice each rank, an integer even for ties. */
  method Doubled(ranks: seq<real>, magnitudes: seq<real>) returns (steps: seq<nat>)
    requires |ranks| == |magnitudes|
    requires forall i :: 0 <= i < |ranks| ==> ranks[i] == DoubledRank(magnitudes, magnitudes[i]) as real / 2.0
    ensures steps == DoubledRanks(magnitudes)
  {
    hide DoubledRank;
    steps := [];
    for i := 0 to |ranks|
      invariant |steps| == i && forall j :: 0 <= j < i ==> steps[j] == DoubledRank(magnitudes, magnitudes[j])
    {
      assert ranks[i] * 2.0 == DoubledRank(magnitudes, magnitudes[i]) as real;
      steps := steps + [(ranks[i] * 2.0).Floor];
    }
  }

  function PositiveSum(ranks: seq<real>, values: seq<real>): real
    requires |ranks| == |values|
  {
    if ranks == [] then 0.0
    else
      var n := |ranks| - 1;
      PositiveSum(ranks[..n], values[..n]) + if values[n] > 0.0 then ranks[n] else 0.0
  }

  lemma {:induction false} PositiveIs(ranks: seq<real>, values: seq<real>, steps: seq<nat>, signs: seq<bool>, n: nat)
    requires |ranks| == |values| == |steps| == |signs| && n <= |ranks|
    requires forall i :: 0 <= i < |ranks| ==> ranks[i] == steps[i] as real / 2.0 && signs[i] == (values[i] > 0.0)
    ensures PositiveSum(ranks[..n], values[..n]) * 2.0 == SumTrue(steps[..n], signs[..n]) as real
  {
    if n > 0 {
      PositiveIs(ranks, values, steps, signs, n - 1);
      assert ranks[..n][..n - 1] == ranks[..n - 1] && values[..n][..n - 1] == values[..n - 1];
      assert steps[..n][..n - 1] == steps[..n - 1] && signs[..n][..n - 1] == signs[..n - 1];
    }
  }

  /** The filtered sums of the dictionary are the sizes of the two tails. */
  lemma TailCounts(steps: seq<nat>, m: map<int, nat>, observed: int)
    requires IsDistribution(steps, m)
    ensures CountRange(m, 0, observed + 1) == |AtMost(steps, observed)|
    ensures CountRange(m, observed, SumAll(steps) + 1) == |AtLeast(steps, observed)|
  {
    hide IsDistribution;
    CountRangeCounts(steps, m, 0, observed + 1);
    CountRangeCounts(steps, m, observed, SumAll(steps) + 1);
    BetweenIsTail(steps, observed);
  }

  lemma {:induction false} NonzeroShorter(values: seq<real>)
    ensures |Nonzero(values)| <= |values|
  {
    if values != [] {
      NonzeroShorter(values[1..]);
    }
  }

  lemma ObservedScore(values: seq<real>, ranks: seq<real>)
    requires var magnitudes := Magnitudes(Nonzero(values));
      |ranks| == |magnitudes| && forall i :: 0 <= i < |ranks| ==> ranks[i] == DoubledRank(magnitudes, magnitudes[i]) as real / 2.0
    ensures (PositiveSum(ranks, Nonzero(values)) * 2.0).Floor == Observed(values)
  {
    hide Nonzero, DoubledRank, SumTrue, PositiveSum;
    var nonzero, steps := Nonzero(values), Steps(values);
    PositiveIs(ranks, nonzero, steps, Signs(values), |nonzero|);
    assert ranks[..|nonzero|] == ranks && nonzero[..|nonzero|] == nonzero;
    assert steps[..|nonzero|] == steps && Signs(values)[..|nonzero|] == Signs(values);
  }

  lemma MeetsDescription(values: seq<real>, critical: Option<nat>)
    requires Nonzero(values) != [] && IsCritical(Steps(values), critical) && SortedWalsh(values) != []
    ensures var walsh := SortedWalsh(values);
      IsReport(values, Report(Some(Median(walsh)), IntervalAt(walsh, critical), Some(PValue(Steps(values), Observed(values))), |Nonzero(values)|))
  {
    hide IsCritical, PValue, SortedWalsh, Nonzero, Median, Observed, Steps;
    NonzeroShorter(values);
  }

  method HodgesLehmannWilcoxon(values: seq<real>) returns (r: Report)
    ensures IsReport(values, r)
  {
    hide IsCritical, PValue, SortedWalsh, Nonzero, Median, IsDistribution, SumTrue, SumAll, DoubledRank, AtMost, AtLeast, Between, CountRange, PositiveSum, Observed;
    SortedWalshFacts(values);
    if values == [] {
      return Report(None, None, None, 0);
    }
    assert |values| * (|values| + 1) > 0;
    var walsh := SortedWalsh(values);
    var nonzero := Nonzero(values);
    if nonzero == [] {
      return Report(Some(0.0), Some((0.0, 0.0)), Some(1.0), 0);
    }
    var ranks := AverageRanks(Magnitudes(nonzero));
    var positive := PositiveSum(ranks, nonzero);
    var steps := Doubled(ranks, Magnitudes(nonzero));
    var distribution := SubsetSumDistribution(steps);
    var observed := (positive * 2.0).Floor;
    ObservedScore(values, ranks);
    var total := SumAll(steps);
    var lower, upper := CountRange(distribution, 0, observed + 1), CountRange(distribution, observed, total + 1);
    TailCounts(steps, distribution, observed);
    Pow2Positive(|steps|);
    var tail := 2.0 * Min(lower, upper) as real / Pow2(|steps|) as real;
    var pValue := if tail < 1.0 then tail else 1.0;
    PValueIs(steps, observed, pValue);
    var critical := Critical(steps, distribution, total);
    MeetsDescription(values, critical);
    r := Report(Some(Median(walsh)), IntervalAt(walsh, critical), Some(pValue), |nonzero|);
  }

  // ---- the interval contains the estimate ----

  lemma UnionCounts(a: set<seq<bool>>, b: set<seq<bool>>)
    ensures |a + b| <= |a| + |b|
  {
    assert a + b == a + (b - a);
    SubsetCounts(b - a, b);
  }

  /** A score in the 2.5% tail lies strictly below half the rank total: beyond it, the tail and its
      mirror image would cover every assignment. */
  lemma TailIsBelowMiddle(steps: seq<nat>, score: int)
    requires InTail(steps, score)
    ensures 2 * score < SumAll(steps)
  {
    if 2 * score >= SumAll(steps) {
      var low, high := AtMost(steps, score), AtLeast(steps, SumAll(steps) - score);
      TailsMirror(steps, score);
      forall s | s in AllSigns(|steps|) ensures s in low + high {
        SignsHaveLength(|steps|);
        WhereMember(steps, x => x <= score, s);
        var other := SumAll(steps) - score;
        WhereMember(steps, x => x >= other, s);
      }
      SubsetCounts(AllSigns(|steps|), low + high);
      UnionCounts(low, high);
      SignsCount(|steps|);
      Pow2Positive(|steps|);
      assert false;
    }
  }

  lemma {:induction false} PronicGrows(n: nat, big: nat)
    requires n <= big
    ensures n * (n + 1) <= big * (big + 1)
  {
    if n < big {
      PronicGrows(n, big - 1);
      assert big * (big + 1) == (big - 1) * big + 2 * big;
    }
  }

  lemma HalfwayBelow(n: nat, big: nat, m: nat, score: nat)
    requires n <= big && 2 * m == big * (big + 1) && 2 * score < n * (n + 1)
    ensures 2 * (score / 2) < m
  {
    PronicGrows(n, big);
  }

  /** Whenever an interval is reported, the estimate lies in it: for any differences, with ties and zeros. */
  lemma IntervalContainsEstimate(values: seq<real>, r: Report)
    requires IsReport(values, r) && r.interval.Some?
    ensures r.hodgesLehmann.Some? && r.interval.value.0 <= r.hodgesLehmann.value <= r.interval.value.1
  {
    hide SortedWalsh, Nonzero, PValue, SumAll, InTail, Reachable;
    if Nonzero(values) != [] {
      var walsh := SortedWalsh(values);
      var c :| IsCritical(Steps(values), c) && r.interval == IntervalAt(walsh, c);
      TailIsBelowMiddle(Steps(values), c.value);
      RankTotal(Magnitudes(Nonzero(values)));
      NonzeroShorter(values);
      SortedWalshFacts(values);
      HalfwayBelow(|Nonzero(values)|, |values|, |walsh|, c.value);
    }
  }

  /** The observed assignment itself lies in both tails. */
  lemma TailsNonempty(steps: seq<nat>, signs: seq<bool>)
    requires |signs| == |steps|
    ensures |AtMost(steps, SumTrue(steps, signs))| > 0 && |AtLeast(steps, SumTrue(steps, signs))| > 0
  {
    hide SumTrue, Where;
    var observed := SumTrue(steps, signs);
    WhereMember(steps, x => x <= observed, signs);
    WhereMember(steps, x => x >= observed, signs);
    SubsetCounts({signs}, AtMost(steps, observed));
    SubsetCounts({signs}, AtLeast(steps, observed));
  }

  /** The two-sided p-value is a probability: it is never zero and never exceeds one. */
  lemma PValueInRange(steps: seq<nat>, signs: seq<bool>)
    requires |signs| == |steps|
    ensures 0.0 < PValue(steps, SumTrue(steps, signs)) <= 1.0
  {
    hide AtMost, AtLeast, SumTrue;
    var observed := SumTrue(steps, signs);
    TailsNonempty(steps, signs);
    Pow2Positive(|steps|);
    QuotientOrder(2.0 * Min(|AtMost(steps, observed)|, |AtLeast(steps, observed)|) as real, Pow2(|steps|) as real, 0.0);
  }

  lemma ReportedPValueInRange(values: seq<real>, r: Report)
    requires IsReport(values, r) && values != []
    ensures r.pValue.Some? && 0.0 < r.pValue.value <= 1.0
  {
    hide SortedWalsh, Nonzero, PValue, IsCritical;
    if Nonzero(values) != [] {
      PValueInRange(Steps(values), Signs(values));
    }
  }

  // ---- negating every difference ----

  function Negate(values: seq<real>): seq<real> {
    seq(|values|, i requires 0 <= i < |values| => -values[i])
  }

  function MirrorOf(r: Report): Report {
    Report(if r.hodgesLehmann.Some? then Some(-r.hodgesLehmann.value) else None,
           if r.interval.Some? then Some((-r.interval.value.1, -r.interval.value.0)) else None,
           r.pValue, r.effectiveN)
  }

  lemma {:induction false} NegateNonzero(values: seq<real>)
    ensures Nonzero(Negate(values)) == Negate(Nonzero(values))
  {
    if values != [] {
      NegateNonzero(values[1..]);
      assert Negate(values)[1..] == Negate(values[1..]);
      assert Negate(values)[0] == -values[0];
    }
  }

  lemma NonzeroMembers(values: seq<real>)
    ensures forall i :: 0 <= i < |Nonzero(values)| ==> Nonzero(values)[i] != 0.0
  {
    FilterMembers((x: real) => x != 0.0, values);
    forall i | 0 <= i < |Nonzero(values)| ensures Nonzero(values)[i] != 0.0 {
      assert Nonzero(values)[i] in Nonzero(values);
    }
  }

  /** Ranks depend on magnitudes only; every sign flips. */
  lemma NegateTest(values: seq<real>)
    ensures Steps(Negate(values)) == Steps(values)
    ensures Signs(Negate(values)) == Flip(Signs(values))
    ensures Observed(Negate(values)) == SumAll(Steps(values)) - Observed(values)
  {
    hide Nonzero, DoubledRank, SumTrue, SumAll;
    NegateNonzero(values);
    assert Magnitudes(Nonzero(Negate(values))) == Magnitudes(Nonzero(values));
    NonzeroMembers(values);
    FlipSum(Steps(values), Signs(values));
  }

  lemma {:induction false} NegateWalsh(values: seq<real>, i: nat)
    requires i <= |values|
    ensures Walsh(Negate(values), i) == Negate(Walsh(values, i))
    decreases |values| - i
  {
    if i < |values| {
      NegateWalsh(values, i + 1);
      assert WalshRow(Negate(values), i) == Negate(WalshRow(values, i));
    }
  }

  function Reversed(s: seq<real>): seq<real> {
    seq(|s|, i requires 0 <= i < |s| => s[|s| - 1 - i])
  }

  lemma {:induction false} ReversedPermutes(s: seq<real>)
    ensures multiset(Reversed(s)) == multiset(s)
  {
    if s != [] {
      ReversedPermutes(s[1..]);
      assert s == [s[0]] + s[1..];
      assert Reversed(s) == Reversed(s[1..]) + [s[0]];
    }
  }

  lemma {:induction false} NegatePermutes(a: seq<real>, b: seq<real>)
    requires multiset(a) == multiset(b)
    ensures multiset(Negate(a)) == multiset(Negate(b))
  {
    assert |multiset(a)| == |a| && |multiset(b)| == |b|;
    if a != [] {
      assert a[0] in multiset(b);
      var i :| 0 <= i < |b| && b[i] == a[0];
      RemoveOne(a, b, i);
      NegatePermutes(a[1..], b[..i] + b[i + 1..]);
      assert Negate(a) == [-a[0]] + Negate(a[1..]);
      assert Negate(b) == Negate(b[..i]) + ([-a[0]] + Negate(b[i + 1..]));
      assert Negate(b[..i] + b[i + 1..]) == Negate(b[..i]) + Negate(b[i + 1..]);
    }
  }

  /** Sorting the negated averages reverses the sorted averages. */
  lemma NegateSortedWalsh(values: seq<real>)
    ensures SortedWalsh(Negate(values)) == Negate(Reversed(SortedWalsh(values)))
  {
    var le := (a: real, b: real) => a <= b;
    var s, t := SortedWalsh(values), SortedWalsh(Negate(values));
    var m := Negate(Reversed(s));
    NegateWalsh(values, 0);
    SortPermutes(Walsh(values, 0), le);
    SortPermutes(Walsh(Negate(values), 0), le);
    ReversedPermutes(s);
    NegatePermutes(Reversed(s), Walsh(values, 0));
    SortedWalshFacts(values);
    SortSorts(Walsh(Negate(values), 0), le);
    assert SortedBy(m, le) by {
      forall i, j | 0 <= i < j < |m| ensures le(m[i], m[j]) {
        assert s[|s| - 1 - j] <= s[|s| - 1 - i];
      }
    }
    SortedUnique(t, m, le);
  }

  lemma MirroredPValue(steps: seq<nat>, observed: int)
    ensures PValue(steps, SumAll(steps) - observed) == PValue(steps, observed)
  {
    TailsMirror(steps, observed);
    TailsMirror(steps, SumAll(steps) - observed);
  }

  /** Negating every difference leaves the p-value alone and mirrors the estimate and the interval. */
  lemma NegationMirrors(values: seq<real>, r: Report)
    requires IsReport(values, r)
    ensures IsReport(Negate(values), MirrorOf(r))
  {
    hide SortedWalsh, Nonzero, IsCritical, Steps, Observed, SumAll, PValue;
    NegateNonzero(values);
    if values != [] && Nonzero(values) != [] {
      var walsh, mirrored := SortedWalsh(values), SortedWalsh(Negate(values));
      NegateSortedWalsh(values);
      NegateTest(values);
      MirroredPValue(Steps(values), Observed(values));
      var c :| IsCritical(Steps(values), c) && r.interval == IntervalAt(walsh, c);
      assert IntervalAt(mirrored, c) == MirrorOf(r).interval;
      assert Median(mirrored) == -Median(walsh);
    }
  }

  /** The description fixes the report. */
  lemma ReportUnique(values: seq<real>, a: Report, b: Report)
    requires IsReport(values, a) && IsReport(values, b)
    ensures a == b
  {
    hide SortedWalsh, Nonzero, Steps, Observed, PValue, Reachable, InTail;
    if values != [] && Nonzero(values) != [] {
      var walsh := SortedWalsh(values);
      var c :| IsCritical(Steps(values), c) && a.interval == IntervalAt(walsh, c);
      var d :| IsCritical(Steps(values), d) && b.interval == IntervalAt(walsh, d);
    }
  }
}
