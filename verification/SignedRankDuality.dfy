/** What makes the interval an inversion of the signed-rank test: it holds a shift exactly when the
    shifted differences are not rejected (core/eval/memory_ablation.py). */
module SignedRankDuality {
  import opened Basics
  import opened Sorting
  import opened SubsetSums
  import opened Ranks
  import opened SignedRank

  function Shift(values: seq<real>, theta: real): seq<real> {
    seq(|values|, i requires 0 <= i < |values| => values[i] - theta)
  }

  /** No two values, nor one with itself, cancel. */
  ghost predicate NoneCancel(y: seq<real>) {
    forall i, j :: 0 <= i < |y| && 0 <= j < |y| ==> y[i] + y[j] != 0.0
  }

  // ---- the statistic counts the pairs with a positive sum ----

  /** How many values of s have a positive sum with x. */
  function Above(s: seq<real>, x: real): nat {
    if s == [] then 0 else Above(s[..|s| - 1], x) + if s[|s| - 1] + x > 0.0 then 1 else 0
  }

  /** How many pairs i <= j have a positive sum. */
  function PairsAbove(y: seq<real>): nat {
    if y == [] then 0 else (if y[0] > 0.0 then 1 else 0) + Above(y[1..], y[0]) + PairsAbove(y[1..])
  }

  /** Doubled ranks, within a pool of magnitudes, of the positive values of s. */
  function SignedSum(s: seq<real>, pool: seq<real>): nat {
    if s == [] then 0 else SignedSum(s[1..], pool) + if s[0] > 0.0 then DoubledRank(pool, s[0]) else 0
  }

  /** What the positive values of s gain in doubled rank from a further magnitude m. */
  function Gains(s: seq<real>, m: real): nat {
    if s == [] then 0
    else Gains(s[..|s| - 1], m) +
         if s[|s| - 1] > 0.0 then 2 * Below([m], s[|s| - 1]) + Equal([m], s[|s| - 1]) else 0
  }

  lemma CountOne(m: real, v: real)
    ensures Below([m], v) == if m < v then 1 else 0
    ensures Equal([m], v) == if m == v then 1 else 0
  {
    assert [m][..0] == [];
  }

  lemma {:induction false} GainsFront(x: real, s: seq<real>, m: real)
    ensures Gains([x] + s, m) == Gains(s, m) + if x > 0.0 then 2 * Below([m], x) + Equal([m], x) else 0
    decreases |s|
  {
    hide Below, Equal;
    if s != [] {
      var init := s[..|s| - 1];
      GainsFront(x, init, m);
      assert ([x] + s)[..|s|] == [x] + init;
    } else {
      assert ([x] + s)[..0] == [];
    }
  }

  lemma {:induction false} PoolGains(s: seq<real>, m: real, pool: seq<real>)
    ensures SignedSum(s, [m] + pool) == SignedSum(s, pool) + Gains(s, m)
  {
    hide Below, Equal;
    if s != [] {
      PoolGains(s[1..], m, pool);
      CountsSplit([m], pool, s[0]);
      GainsFront(s[0], s[1..], m);
      assert s == [s[0]] + s[1..];
    }
  }

  /** A pair of opposite or equal signs adds two doubled ranks if its sum is positive, else none. */
  lemma {:induction false} PairLaw(s: seq<real>, x: real)
    requires x != 0.0 && forall k :: 0 <= k < |s| ==> s[k] != 0.0 && s[k] + x != 0.0
    ensures Gains(s, Abs(x)) + (if x > 0.0 then 2 * Below(Magnitudes(s), x) + Equal(Magnitudes(s), x) else 0) == 2 * Above(s, x)
  {
    if s != [] {
      var init, last := s[..|s| - 1], s[|s| - 1];
      PairLaw(init, x);
      assert Magnitudes(s)[..|s| - 1] == Magnitudes(init);
      CountOne(Abs(x), last);
    }
  }

  lemma {:induction false} SignedSumIsPairs(y: seq<real>)
    requires NoneCancel(y)
    ensures SignedSum(y, Magnitudes(y)) == 2 * PairsAbove(y)
  {
    hide Below, Equal, Above, Gains;
    if y != [] {
      var x, s := y[0], y[1..];
      SignedSumIsPairs(s);
      PoolGains(s, Abs(x), Magnitudes(s));
      assert y[0] + y[0] != 0.0;
      PairLaw(s, x);
      assert Magnitudes(y) == [Abs(x)] + Magnitudes(s);
      CountsSplit([Abs(x)], Magnitudes(s), x);
      CountOne(Abs(x), x);
    }
  }

  lemma {:induction false} SumTrueFront(a: nat, steps: seq<nat>, b: bool, signs: seq<bool>)
    requires |signs| == |steps|
    ensures SumTrue([a] + steps, [b] + signs) == SumTrue(steps, signs) + if b then a else 0
    decreases |steps|
  {
    var n := |steps|;
    if n > 0 {
      SumTrueFront(a, steps[..n - 1], b, signs[..n - 1]);
      assert ([a] + steps)[..n] == [a] + steps[..n - 1] && ([b] + signs)[..n] == [b] + signs[..n - 1];
    } else {
      assert ([a] + steps)[..0] == [] && ([b] + signs)[..0] == [];
    }
  }

  function RanksIn(s: seq<real>, pool: seq<real>): seq<nat> {
    seq(|s|, i requires 0 <= i < |s| => DoubledRank(pool, Abs(s[i])))
  }

  function Positive(s: seq<real>): seq<bool> {
    seq(|s|, i requires 0 <= i < |s| => s[i] > 0.0)
  }

  lemma {:induction false} SumTrueIsSigned(s: seq<real>, pool: seq<real>)
    ensures SumTrue(RanksIn(s, pool), Positive(s)) == SignedSum(s, pool)
  {
    hide DoubledRank;
    if s != [] {
      SumTrueIsSigned(s[1..], pool);
      assert RanksIn(s, pool) == [DoubledRank(pool, Abs(s[0]))] + RanksIn(s[1..], pool);
      assert Positive(s) == [s[0] > 0.0] + Positive(s[1..]);
      SumTrueFront(DoubledRank(pool, Abs(s[0])), RanksIn(s[1..], pool), s[0] > 0.0, Positive(s[1..]));
    }
  }

  /** The observed score is twice the number of pairs with a positive sum. */
  lemma ObservedIsPairs(y: seq<real>)
    requires NoneCancel(y)
    ensures Nonzero(y) == y && Observed(y) == 2 * PairsAbove(y)
  {
    hide DoubledRank, SumTrue, SignedSum, PairsAbove;
    assert forall i :: 0 <= i < |y| ==> y[i] + y[i] != 0.0;
    FilterAll((x: real) => x != 0.0, y);
    SignedSumIsPairs(y);
    SumTrueIsSigned(y, Magnitudes(y));
    assert Steps(y) == RanksIn(y, Magnitudes(y));
    assert Signs(y) == Positive(y);
  }

  // ---- the pairs are the averages above the shift ----

  /** Averages of x with each value of s. */
  function Averages(x: real, s: seq<real>): seq<real> {
    seq(|s|, k requires 0 <= k < |s| => (x + s[k]) / 2.0)
  }

  lemma WalshFrom(values: seq<real>, i: nat)
    requires i < |values|
    ensures Walsh(values, i) == WalshRow(values, i) + Walsh(values, i + 1)
  {
  }

  lemma RowOfTail(x: real, s: seq<real>, i: nat)
    requires i <= |s|
    ensures WalshRow([x] + s, i + 1) == WalshRow(s, i)
  {
  }

  lemma {:induction false} WalshOfTail(x: real, s: seq<real>, i: nat)
    requires i <= |s|
    ensures Walsh([x] + s, i + 1) == Walsh(s, i)
    decreases |s| - i
  {
    hide Walsh, WalshRow;
    WalshLength([x] + s, i + 1);
    WalshLength(s, i);
    if i < |s| {
      WalshOfTail(x, s, i + 1);
      RowOfTail(x, s, i);
      WalshFrom([x] + s, i + 1);
      WalshFrom(s, i);
    }
  }

  lemma FirstRow(x: real, s: seq<real>)
    ensures WalshRow([x] + s, 0) == [x] + Averages(x, s)
  {
    assert (x + x) / 2.0 == x;
  }

  lemma WalshFront(values: seq<real>)
    requires values != []
    ensures Walsh(values, 0) == [values[0]] + Averages(values[0], values[1..]) + Walsh(values[1..], 0)
  {
    hide Walsh, WalshRow;
    var x, s := values[0], values[1..];
    assert values == [x] + s;
    WalshOfTail(x, s, 0);
    WalshFrom(values, 0);
    FirstRow(x, s);
  }

  lemma {:induction false} RowAbove(x: real, s: seq<real>, theta: real)
    requires theta !in Averages(x, s)
    ensures Below(Averages(x, s), theta) + Above(Shift(s, theta), x - theta) == |s|
  {
    if s != [] {
      var n := |s| - 1;
      assert Averages(x, s)[..n] == Averages(x, s[..n]) && Shift(s, theta)[..n] == Shift(s[..n], theta);
      assert Averages(x, s)[n] in Averages(x, s);
      RowAbove(x, s[..n], theta);
    }
  }

  lemma {:induction false} BelowAtMost(s: seq<real>, v: real)
    ensures Below(s, v) <= |s|
  {
    if s != [] {
      BelowAtMost(s[..|s| - 1], v);
    }
  }

  lemma {:induction false} WalshAbove(values: seq<real>, theta: real)
    requires theta !in Walsh(values, 0)
    ensures Below(Walsh(values, 0), theta) + PairsAbove(Shift(values, theta)) == |Walsh(values, 0)|
  {
    hide Below, Equal, Above, Walsh;
    if values != [] {
      var x, s := values[0], values[1..];
      WalshFront(values);
      WalshAbove(s, theta);
      RowAbove(x, s, theta);
      CountsSplit([x] + Averages(x, s), Walsh(s, 0), theta);
      CountsSplit([x], Averages(x, s), theta);
      CountOne(x, theta);
      assert Shift(values, theta)[1..] == Shift(s, theta);
      assert x in Walsh(values, 0);
    } else {
      WalshLength(values, 0);
      BelowAtMost(Walsh(values, 0), theta);
    }
  }

  lemma {:induction false} PairInWalsh(values: seq<real>, i: nat, j: nat)
    requires i <= j < |values|
    ensures (values[i] + values[j]) / 2.0 in Walsh(values, 0)
  {
    hide Walsh;
    WalshFront(values);
    if i > 0 {
      PairInWalsh(values[1..], i - 1, j - 1);
    } else if j > 0 {
      assert Averages(values[0], values[1..])[j - 1] == (values[i] + values[j]) / 2.0;
    }
  }

  /** A shift that is no pairwise average leaves no zero and no pair that cancels. */
  lemma ShiftOffAverages(values: seq<real>, theta: real)
    requires theta !in Walsh(values, 0)
    ensures NoneCancel(Shift(values, theta))
  {
    hide Walsh;
    forall i, j | 0 <= i < |values| && 0 <= j < |values| ensures Shift(values, theta)[i] + Shift(values, theta)[j] != 0.0 {
      PairInWalsh(values, Min(i, j), Max(i, j));
    }
  }

  lemma {:induction false} BelowPermutes(a: seq<real>, b: seq<real>, v: real)
    requires multiset(a) == multiset(b)
    ensures Below(a, v) == Below(b, v) && Equal(a, v) == Equal(b, v)
  {
    hide Below, Equal;
    assert |multiset(a)| == |a| && |multiset(b)| == |b|;
    if a != [] {
      assert a[0] in multiset(b);
      var i :| 0 <= i < |b| && b[i] == a[0];
      RemoveOne(a, b, i);
      BelowPermutes(a[1..], b[..i] + b[i + 1..], v);
      assert a == [a[0]] + a[1..] && b == b[..i] + ([b[i]] + b[i + 1..]);
      CountsSplit([a[0]], a[1..], v);
      CountsSplit(b[..i], [b[i]] + b[i + 1..], v);
      CountsSplit([b[i]], b[i + 1..], v);
      CountsSplit(b[..i], b[i + 1..], v);
    } else {
      assert b == [];
    }
  }

  lemma {:induction false} AllBelow(s: seq<real>, v: real)
    requires forall i :: 0 <= i < |s| ==> s[i] < v
    ensures Below(s, v) == |s|
  {
    if s != [] {
      AllBelow(s[..|s| - 1], v);
    }
  }

  /** In an ascending list the values below v come first. */
  lemma {:induction false} BelowComesFirst(s: seq<real>, v: real, k: nat)
    requires k < |s| && forall i, j :: 0 <= i <= j < |s| ==> s[i] <= s[j]
    ensures s[k] < v <==> k < Below(s, v)
  {
    var n := |s| - 1;
    BelowAtMost(s[..n], v);
    if k < n {
      BelowComesFirst(s[..n], v, k);
    } else if s[n] < v {
      AllBelow(s, v);
    }
  }

  // ---- the interval and the test, each by the smaller number of averages on one side of the shift ----

  /** How many pairwise averages lie on the side of theta that has fewer of them. */
  function Fewer(values: seq<real>, theta: real): int {
    var below := Below(Walsh(values, 0), theta);
    Min(below, |Walsh(values, 0)| - below)
  }

  /** A critical score as an index into the averages, -1 if the tail is empty. */
  function Cut(c: Option<nat>): int {
    match c
    case None => -1
    case Some(score) => score / 2
  }

  /** No reported interval excludes nothing. */
  predicate Covers(interval: Option<(real, real)>, theta: real) {
    match interval
    case None => true
    case Some((low, high)) => low <= theta <= high
  }

  lemma StepsTotal(values: seq<real>)
    ensures SumAll(Steps(values)) == |Nonzero(values)| * (|Nonzero(values)| + 1)
  {
    RankTotal(Magnitudes(Nonzero(values)));
  }

  lemma BelowSorted(values: seq<real>, theta: real)
    ensures Below(SortedWalsh(values), theta) == Below(Walsh(values, 0), theta)
    ensures |SortedWalsh(values)| == |Walsh(values, 0)|
    ensures theta in SortedWalsh(values) <==> theta in Walsh(values, 0)
  {
    hide Walsh, Below;
    var le := (a: real, b: real) => a <= b;
    SortPermutes(Walsh(values, 0), le);
    SortMembers(Walsh(values, 0), le);
    BelowPermutes(SortedWalsh(values), Walsh(values, 0), theta);
  }

  lemma CoversByAverages(values: seq<real>, theta: real, c: Option<nat>)
    requires Nonzero(values) != [] && IsCritical(Steps(values), c) && theta !in Walsh(values, 0)
    ensures SortedWalsh(values) != []
    ensures Covers(IntervalAt(SortedWalsh(values), c), theta) <==> Fewer(values, theta) > Cut(c)
  {
    hide Nonzero, Walsh, Below, InTail, Reachable, Steps, SortedWalsh;
    var walsh, m := SortedWalsh(values), |SortedWalsh(values)|;
    SortedWalshFacts(values);
    NonzeroShorter(values);
    assert |values| * (|values| + 1) > 0;
    BelowSorted(values, theta);
    if c.Some? {
      TailIsBelowMiddle(Steps(values), c.value);
      StepsTotal(values);
      HalfwayBelow(|Nonzero(values)|, |values|, m, c.value);
      var k := c.value / 2;
      BelowComesFirst(walsh, theta, k);
      BelowComesFirst(walsh, theta, m - k - 1);
      assert walsh[k] in walsh && walsh[m - k - 1] in walsh;
    } else {
      BelowAtMost(walsh, theta);
    }
  }

  /** Within the reachable scores the tail is what does not exceed the critical score. */
  lemma TailByCritical(steps: seq<nat>, c: Option<nat>, score: int)
    requires IsCritical(steps, c) && Reachable(steps, score)
    ensures InTail(steps, score) <==> c.Some? && score <= c.value
  {
    hide InTail, Reachable;
    if c.Some? && score <= c.value && !InTail(steps, score) {
      TailShrinks(steps, score, c.value);
    }
  }

  /** At the 5% level the test rejects when the score or its mirror image lies in the 2.5% tail. */
  lemma RejectedByTails(steps: seq<nat>, observed: int)
    ensures PValue(steps, observed) <= 0.05 <==> InTail(steps, observed) || InTail(steps, SumAll(steps) - observed)
  {
    hide AtMost, AtLeast, SumAll;
    Pow2Positive(|steps|);
    TailsMirror(steps, SumAll(steps) - observed);
    QuotientOrder(2.0 * Min(|AtMost(steps, observed)|, |AtLeast(steps, observed)|) as real, Pow2(|steps|) as real, 0.05);
  }

  lemma ReachableByMirror(steps: seq<nat>, signs: seq<bool>)
    requires |signs| == |steps|
    ensures Reachable(steps, SumTrue(steps, signs)) && Reachable(steps, SumAll(steps) - SumTrue(steps, signs))
  {
    hide SumAll, SumTrue;
    FlipSum(steps, signs);
    HitsMember(steps, SumTrue(steps, signs), signs);
    HitsMember(steps, SumTrue(steps, Flip(signs)), Flip(signs));
  }

  lemma SignsFit(values: seq<real>)
    ensures |Signs(values)| == |Steps(values)|
  {
  }

  lemma AcceptedByAverages(values: seq<real>, theta: real, c: Option<nat>)
    requires theta !in Walsh(values, 0)
    requires IsCritical(Steps(Shift(values, theta)), c)
    ensures var y := Shift(values, theta); PValue(Steps(y), Observed(y)) > 0.05 <==> Fewer(values, theta) > Cut(c)
  {
    hide Walsh, Below, InTail, Reachable, Steps, SumTrue, SumAll, PairsAbove, IsCritical, PValue, Signs;
    var y := Shift(values, theta);
    var steps := Steps(y);
    ShiftOffAverages(values, theta);
    ObservedIsPairs(y);
    WalshAbove(values, theta);
    WalshLength(values, 0);
    StepsTotal(y);
    SignsFit(y);
    ReachableByMirror(steps, Signs(y));
    RejectedByTails(steps, Observed(y));
    TailByCritical(steps, c, Observed(y));
    TailByCritical(steps, c, SumAll(steps) - Observed(y));
  }

  lemma OneCritical(steps: seq<nat>, c: Option<nat>, d: Option<nat>)
    requires IsCritical(steps, c) && IsCritical(steps, d)
    ensures c == d
  {
  }

  lemma ShiftedReport(values: seq<real>, theta: real, shifted: Report)
    requires values != [] && theta !in Walsh(values, 0) && IsReport(Shift(values, theta), shifted)
    ensures var y := Shift(values, theta); shifted.pValue == Some(PValue(Steps(y), Observed(y)))
  {
    hide Walsh, Nonzero, Steps, Observed, SortedWalsh, IsCritical, PValue;
    ShiftOffAverages(values, theta);
    ObservedIsPairs(Shift(values, theta));
  }

  /** The interval and the test of the shifted differences, with any ties and zeros, agree on a shift
      that is no pairwise average unless its place among the averages falls between the two cuts. */
  lemma InvertsUnlessBetweenCuts(values: seq<real>, theta: real, r: Report, shifted: Report, c: Option<nat>, d: Option<nat>)
    requires Nonzero(values) != [] && theta !in Walsh(values, 0)
    requires IsReport(values, r) && IsReport(Shift(values, theta), shifted)
    requires IsCritical(Steps(values), c) && IsCritical(Steps(Shift(values, theta)), d)
    ensures shifted.pValue.Some?
    ensures (Covers(r.interval, theta) <==> shifted.pValue.value > 0.05) <==>
      !(Min(Cut(c), Cut(d)) < Fewer(values, theta) <= Max(Cut(c), Cut(d)))
  {
    hide Nonzero, Walsh, Fewer, Steps, SortedWalsh, IsCritical, Covers, PValue, Observed, Cut, IntervalAt;
    NonzeroShorter(values);
    ShiftedReport(values, theta, shifted);
    CoversByAverages(values, theta, c);
    AcceptedByAverages(values, theta, d);
    var e :| IsCritical(Steps(values), e) && r.interval == IntervalAt(SortedWalsh(values), e);
    OneCritical(Steps(values), c, e);
  }

  // ---- with zeros they can disagree ----

  lemma {:induction false} AveragesOnOneSide(values: seq<real>, theta: real)
    ensures (forall i :: 0 <= i < |values| ==> theta < values[i]) ==>
      forall k :: 0 <= k < |Walsh(values, 0)| ==> theta < Walsh(values, 0)[k]
    ensures (forall i :: 0 <= i < |values| ==> values[i] < theta) ==>
      forall k :: 0 <= k < |Walsh(values, 0)| ==> Walsh(values, 0)[k] < theta
  {
    hide Walsh;
    if values != [] {
      var x, s := values[0], values[1..];
      WalshFront(values);
      AveragesOnOneSide(s, theta);
      assert (forall i :: 0 <= i < |values| ==> theta < values[i]) ==> forall i :: 0 <= i < |s| ==> theta < s[i];
      assert (forall i :: 0 <= i < |values| ==> values[i] < theta) ==> forall i :: 0 <= i < |s| ==> s[i] < theta;
    } else {
      WalshLength(values, 0);
    }
  }

  lemma {:induction false} NoneIsBelow(s: seq<real>, v: real)
    requires forall i :: 0 <= i < |s| ==> v <= s[i]
    ensures Below(s, v) == 0
  {
    if s != [] {
      NoneIsBelow(s[..|s| - 1], v);
    }
  }

  lemma {:induction false} Pow2Grows(m: nat, n: nat)
    requires m <= n
    ensures 0 < Pow2(m) <= Pow2(n)
    decreases n
  {
    Pow2Positive(n);
    if m < n {
      Pow2Grows(m, n - 1);
    }
  }

  /** Fewer than six differences have no tail: one assignment is already more than 2.5%. */
  lemma FiveAreTooFew(steps: seq<nat>, c: Option<nat>)
    requires |steps| <= 5 && IsCritical(steps, c)
    ensures c == None
  {
    hide Hits, Where;
    if c.Some? {
      Pow2Grows(|steps|, 5);
      EmptyIffZero(Hits(steps, c.value));
      OneMoreTotal(steps, c.value);
      assert false;
    }
  }

  lemma {:induction false} NothingSummed(steps: seq<nat>, signs: seq<bool>)
    requires |signs| == |steps| && forall i :: 0 <= i < |steps| ==> steps[i] > 0
    ensures SumTrue(steps, signs) == 0 <==> signs == seq(|steps|, _ => false)
  {
    var n := |steps| - 1;
    var none := seq(|steps|, _ => false);
    if n >= 0 {
      NothingSummed(steps[..n], signs[..n]);
      assert none == seq(n, _ => false) + [false];
      assert signs == signs[..n] + [signs[n]];
    }
  }

  /** Six positive steps have one: only the assignment without positive signs scores zero. */
  lemma SixAreEnough(steps: seq<nat>, c: Option<nat>)
    requires |steps| >= 6 && (forall i :: 0 <= i < |steps| ==> steps[i] > 0) && IsCritical(steps, c)
    ensures c.Some?
  {
    hide Hits, AtMost;
    var none: seq<bool> := seq(|steps|, _ => false);
    forall s ensures s in Hits(steps, 0) <==> s in {none} {
      HitsMember(steps, 0, s);
      if |s| == |steps| {
        NothingSummed(steps, s);
      }
    }
    assert Hits(steps, 0) == {none};
    OneMoreTotal(steps, 0);
    NoHits(steps, -1);
    Pow2Grows(6, |steps|);
    assert Pow2(6) == 64;
    assert none in Hits(steps, 0);
    assert Reachable(steps, 0) && InTail(steps, 0);
  }

  lemma StepsArePositive(values: seq<real>)
    ensures forall i :: 0 <= i < |Steps(values)| ==> Steps(values)[i] > 0
  {
  }

  lemma CriticalFromSixOn(y: seq<real>, d: Option<nat>)
    requires Nonzero(y) == y && IsCritical(Steps(y), d)
    ensures d.Some? <==> |y| >= 6
  {
    hide Nonzero, IsCritical, DoubledRank;
    StepsArePositive(y);
    if |y| >= 6 {
      SixAreEnough(Steps(y), d);
    } else {
      FiveAreTooFew(Steps(y), d);
    }
  }

  lemma OneSidedFewer(values: seq<real>, theta: real)
    requires values != []
    requires (forall i :: 0 <= i < |values| ==> theta < values[i]) || (forall i :: 0 <= i < |values| ==> values[i] < theta)
    ensures theta !in Walsh(values, 0) && Fewer(values, theta) == 0
  {
    hide Walsh, Below;
    AveragesOnOneSide(values, theta);
    var w := Walsh(values, 0);
    if theta < values[0] {
      NoneIsBelow(w, theta);
    } else {
      AllBelow(w, theta);
    }
  }

  /** Every shift on one side of all differences is rejected from six differences on. */
  lemma OneSidedShift(values: seq<real>, theta: real, shifted: Report)
    requires values != [] && IsReport(Shift(values, theta), shifted)
    requires (forall i :: 0 <= i < |values| ==> theta < values[i]) || (forall i :: 0 <= i < |values| ==> values[i] < theta)
    ensures theta !in Walsh(values, 0)
    ensures shifted.pValue.Some? && (shifted.pValue.value <= 0.05 <==> |values| >= 6)
  {
    hide Nonzero, Walsh, SortedWalsh, IsCritical, PValue, Observed, Below, Steps, IntervalAt;
    OneSidedFewer(values, theta);
    ShiftedReport(values, theta, shifted);
    ShiftOffAverages(values, theta);
    ObservedIsPairs(Shift(values, theta));
    var d :| IsCritical(Steps(Shift(values, theta)), d) && shifted.interval == IntervalAt(SortedWalsh(Shift(values, theta)), d);
    CriticalFromSixOn(Shift(values, theta), d);
    AcceptedByAverages(values, theta, d);
  }

  lemma StepsFit(values: seq<real>)
    ensures |Steps(values)| == |Nonzero(values)|
  {
  }

  /** Zeros do not count towards the interval's tail but count after a shift: with six differences, at
      most five of them nonzero, no shift is excluded, yet the test rejects each one beyond them all. */
  lemma ZerosBreakInversion(values: seq<real>, theta: real, r: Report, shifted: Report)
    requires 0 < |Nonzero(values)| <= 5 < |values|
    requires (forall i :: 0 <= i < |values| ==> theta < values[i]) || (forall i :: 0 <= i < |values| ==> values[i] < theta)
    requires IsReport(values, r) && IsReport(Shift(values, theta), shifted)
    ensures Covers(r.interval, theta) && shifted.pValue.Some? && shifted.pValue.value <= 0.05
  {
    hide Nonzero, Walsh, SortedWalsh, IsCritical, PValue, Observed, Steps;
    OneSidedShift(values, theta, shifted);
    var c :| IsCritical(Steps(values), c) && r.interval == IntervalAt(SortedWalsh(values), c);
    StepsFit(values);
    FiveAreTooFew(Steps(values), c);
  }

  lemma {:induction false} AllZero(values: seq<real>)
    requires Nonzero(values) == []
    ensures forall i :: 0 <= i < |values| ==> values[i] == 0.0
  {
    if values != [] {
      AllZero(values[1..]);
    }
  }

  /** Without any nonzero difference the interval is the point zero, which is right from six on. */
  lemma AllZerosInvert(values: seq<real>, theta: real, r: Report, shifted: Report)
    requires values != [] && Nonzero(values) == [] && theta != 0.0
    requires IsReport(values, r) && IsReport(Shift(values, theta), shifted)
    ensures !Covers(r.interval, theta) && shifted.pValue.Some?
    ensures shifted.pValue.value <= 0.05 <==> |values| >= 6
  {
    hide Nonzero, Walsh, SortedWalsh, IsCritical, PValue, Observed, Steps;
    AllZero(values);
    OneSidedShift(values, theta, shifted);
  }

  /** Five unchanged pairs and one improved by one, against a loss of one everywhere. */
  lemma ZerosBreakInversionHere(r: Report, shifted: Report)
    requires IsReport([0.0, 0.0, 0.0, 0.0, 0.0, 1.0], r) && IsReport(Shift([0.0, 0.0, 0.0, 0.0, 0.0, 1.0], -1.0), shifted)
    ensures Covers(r.interval, -1.0) && shifted.pValue.Some? && shifted.pValue.value <= 0.05
  {
    hide IsReport;
    var p := (x: real) => x != 0.0;
    FilterNone(p, [0.0, 0.0, 0.0, 0.0, 0.0]);
    FilterAll(p, [1.0]);
    FilterSplits(p, [0.0, 0.0, 0.0, 0.0, 0.0], [1.0]);
    assert [0.0, 0.0, 0.0, 0.0, 0.0] + [1.0] == [0.0, 0.0, 0.0, 0.0, 0.0, 1.0];
    ZerosBreakInversion([0.0, 0.0, 0.0, 0.0, 0.0, 1.0], -1.0, r, shifted);
  }

  // ---- without ties and zeros both cuts are the same ----

  function Evens(n: nat): seq<nat> {
    seq(n, i requires 0 <= i < n => 2 * (i + 1))
  }

  function RanksAt(values: seq<real>, order: seq<nat>): seq<nat> {
    seq(|order|, i requires 0 <= i < |order| => DoubledRank(values, At(values, order[i])))
  }

  lemma {:induction false} RanksAtPermute(values: seq<real>, a: seq<nat>, b: seq<nat>)
    requires multiset(a) == multiset(b)
    ensures multiset(RanksAt(values, a)) == multiset(RanksAt(values, b))
  {
    hide DoubledRank, At;
    assert |multiset(a)| == |a| && |multiset(b)| == |b|;
    if a != [] {
      assert a[0] in multiset(b);
      var i :| 0 <= i < |b| && b[i] == a[0];
      RemoveOne(a, b, i);
      RanksAtPermute(values, a[1..], b[..i] + b[i + 1..]);
      var one := RanksAt(values, [a[0]]);
      assert RanksAt(values, a) == one + RanksAt(values, a[1..]);
      assert RanksAt(values, b) == RanksAt(values, b[..i]) + (one + RanksAt(values, b[i + 1..]));
      assert RanksAt(values, b[..i] + b[i + 1..]) == RanksAt(values, b[..i]) + RanksAt(values, b[i + 1..]);
    } else {
      assert b == [];
    }
  }

  lemma UntiedRank(values: seq<real>, k: nat)
    requires Distinct(values) && k < |values|
    ensures k < |Ordered(values)| && DoubledRank(values, At(values, Ordered(values)[k])) == 2 * (k + 1)
  {
    hide DoubledRank, Ordered;
    OrderedFacts(values);
    var order := Ordered(values);
    forall i, j | 0 <= i < j < |order| ensures At(values, order[i]) < At(values, order[j]) {
      assert order[i] in order && order[j] in order;
    }
    BandRank(values, k, k + 1);
  }

  /** The doubled ranks of n different magnitudes are 2, 4, ..., 2n in some order. */
  lemma UntiedRanks(values: seq<real>)
    requires Distinct(values)
    ensures multiset(DoubledRanks(values)) == multiset(Evens(|values|))
  {
    hide DoubledRank, Sort;
    var order := Ordered(values);
    OrderedFacts(values);
    SortPermutes(Positions(|values|), (a, b) => At(values, a) <= At(values, b));
    RanksAtPermute(values, order, Positions(|values|));
    assert RanksAt(values, Positions(|values|)) == DoubledRanks(values);
    forall k | 0 <= k < |order| ensures RanksAt(values, order)[k] == 2 * (k + 1) {
      UntiedRank(values, k);
    }
    assert RanksAt(values, order) == Evens(|values|);
  }

  lemma SameCritical(a: seq<nat>, b: seq<nat>, c: Option<nat>)
    requires multiset(a) == multiset(b) && IsCritical(a, c)
    ensures IsCritical(b, c)
  {
    hide Hits, AtMost;
    assert |multiset(a)| == |a| && |multiset(b)| == |b|;
    forall t ensures (Reachable(a, t) <==> Reachable(b, t)) && (InTail(a, t) <==> InTail(b, t)) {
      HitsPermute(a, b, t);
      TailPermutes(a, b, t);
    }
  }

  /** Shifting keeps different values different, and off the averages none cancel: no ties arise. */
  lemma ShiftKeepsUntied(values: seq<real>, theta: real)
    requires Distinct(Magnitudes(values)) && theta !in Walsh(values, 0)
    ensures Distinct(Magnitudes(Shift(values, theta)))
  {
    hide Walsh;
    var y := Shift(values, theta);
    ShiftOffAverages(values, theta);
    forall i, j | 0 <= i < j < |y| ensures Magnitudes(y)[i] != Magnitudes(y)[j] {
      assert Magnitudes(values)[i] != Magnitudes(values)[j];
      assert y[i] + y[j] != 0.0;
    }
  }

  /** The duality: for nonzero differences of different magnitudes, a shift that is no pairwise average
      lies in the interval exactly when the shifted differences are not rejected at the 5% level. */
  lemma IntervalInvertsTest(values: seq<real>, theta: real, r: Report, shifted: Report)
    requires values != [] && 0.0 !in values && Distinct(Magnitudes(values))
    requires theta !in Walsh(values, 0)
    requires IsReport(values, r) && IsReport(Shift(values, theta), shifted)
    ensures shifted.pValue.Some?
    ensures Covers(r.interval, theta) <==> shifted.pValue.value > 0.05
  {
    hide Walsh, SortedWalsh, IsCritical, DoubledRank, PValue, Observed, Covers, IntervalAt, Fewer, Cut, Sort, Filter;
    var y := Shift(values, theta);
    FilterAll((x: real) => x != 0.0, values);
    ShiftOffAverages(values, theta);
    ObservedIsPairs(y);
    ShiftKeepsUntied(values, theta);
    UntiedRanks(Magnitudes(values));
    UntiedRanks(Magnitudes(y));
    var c :| IsCritical(Steps(values), c) && r.interval == IntervalAt(SortedWalsh(values), c);
    SameCritical(Steps(values), Steps(y), c);
    CoversByAverages(values, theta, c);
    AcceptedByAverages(values, theta, c);
  }

  // ---- a sample with a reported interval that excludes too little ----

  /** How many of the assignments to 2, 4, ..., 2n reach a score. */
  function Ways(n: nat, score: int): nat {
    if score < 0 then 0
    else if n == 0 then (if score == 0 then 1 else 0)
    else Ways(n - 1, score) + Ways(n - 1, score - 2 * n)
  }

  lemma OnlyEmpty(score: nat)
    ensures |Hits(Evens(0), score)| == if score == 0 then 1 else 0
  {
    hide Hits;
    forall s ensures s in Hits([], score) <==> s == [] && score == 0 {
      HitsMember([], score, s);
    }
    assert Evens(0) == [] && Hits([], score) == if score == 0 then {[]} else {};
  }

  lemma {:induction false} EvenHits(n: nat, score: int)
    ensures |Hits(Evens(n), score)| == Ways(n, score)
  {
    hide Hits;
    if score < 0 {
      NoHits(Evens(n), score);
    } else if n > 0 {
      assert Evens(n) == Evens(n - 1) + [2 * n];
      HitsSplit(Evens(n - 1), 2 * n, score);
      EvenHits(n - 1, score);
      EvenHits(n - 1, score - 2 * n);
    } else {
      OnlyEmpty(score);
    }
  }

  lemma WaysAt(n: nat, score: nat)
    ensures Ways(0, score) == if score == 0 then 1 else 0
    ensures n > 0 ==> Ways(n, score) == Ways(n - 1, score) + if score < 2 * n then 0 else Ways(n - 1, score - 2 * n)
  {
  }

  lemma {:induction false} SmallWays(n: nat)
    requires n >= 1
    ensures Ways(n, 0) == Ways(n, 2) == 1 && Ways(n, 1) == Ways(n, 3) == Ways(n, 5) == 0
    ensures Ways(n, 4) == if n == 1 then 0 else 1
    ensures Ways(n, 6) == if n == 1 then 0 else if n == 2 then 1 else 2
  {
    hide Ways;
    if n > 1 {
      SmallWays(n - 1);
    }
    forall score | 0 <= score <= 6
      ensures Ways(n, score) == Ways(n - 1, score) + if score < 2 * n then 0 else Ways(n - 1, score - 2 * n)
      ensures Ways(0, score) == if score == 0 then 1 else 0
    {
      WaysAt(n, score);
    }
  }

  lemma TailStep(n: nat, score: int)
    ensures |AtMost(Evens(n), score)| == |AtMost(Evens(n), score - 1)| + Ways(n, score)
    ensures Reachable(Evens(n), score) <==> Ways(n, score) > 0
  {
    hide Hits, AtMost, Evens, Ways;
    OneMoreTotal(Evens(n), score);
    EvenHits(n, score);
    EmptyIffZero(Hits(Evens(n), score));
  }

  /** The lowest scores of three or more untied ranks: 0, 2, 4 once each, 6 twice. */
  lemma SmallTails(n: nat)
    requires n >= 3
    ensures |AtMost(Evens(n), 4)| == 3 && |AtMost(Evens(n), 6)| == 5
    ensures Reachable(Evens(n), 4) && Reachable(Evens(n), 6)
  {
    hide Hits, AtMost, Evens, Ways, Reachable;
    SmallWays(n);
    NoHits(Evens(n), -1);
    TailStep(n, 0);
    TailStep(n, 1);
    TailStep(n, 2);
    TailStep(n, 3);
    TailStep(n, 4);
    TailStep(n, 5);
    TailStep(n, 6);
  }

  lemma SevenEvens()
    ensures |Evens(7)| == 7 && |Evens(8)| == 8 && Pow2(7) == 128 && Pow2(8) == 256
  {
    assert Pow2(4) == 16;
  }

  lemma CutOfSeven(c: Option<nat>)
    requires IsCritical(Evens(7), c)
    ensures c.Some? && Cut(c) == 2
  {
    hide Reachable, AtMost, Evens;
    SmallTails(7);
    assert |Evens(7)| == 7 && Pow2(7) == 128 by { SevenEvens(); }
    TailByCritical(Evens(7), c, 4);
    TailByCritical(Evens(7), c, 6);
  }

  lemma CutOfEight(c: Option<nat>)
    requires IsCritical(Evens(8), c)
    ensures Cut(c) >= 3
  {
    hide Reachable, AtMost, Evens;
    SmallTails(8);
    SevenEvens();
    TailByCritical(Evens(8), c, 6);
  }

  /** Eight paired differences, one of them zero. */
  const ONE_ZERO: seq<real> := [-4.0, -3.0] + [0.0, 1.0, 2.0, 5.0, 6.0, 7.0]

  lemma BelowFront(values: seq<real>, theta: real)
    requires values != []
    ensures Below(Walsh(values, 0), theta)
      == (if values[0] < theta then 1 else 0) + Below(Averages(values[0], values[1..]), theta) + Below(Walsh(values[1..], 0), theta)
    ensures theta in Walsh(values, 0) <==>
      theta == values[0] || theta in Averages(values[0], values[1..]) || theta in Walsh(values[1..], 0)
  {
    hide Walsh, Below, Equal, Averages;
    var x, s := values[0], values[1..];
    WalshFront(values);
    CountsSplit([x] + Averages(x, s), Walsh(s, 0), theta);
    CountsSplit([x], Averages(x, s), theta);
    CountOne(x, theta);
  }

  lemma OneAverageBelow(rest: seq<real>)
    requires forall i :: 0 <= i < |rest| ==> rest[i] >= 0.0
    ensures Below(Averages(-3.0, rest), -2.5) == 0 && -2.5 !in Averages(-3.0, rest)
    ensures Below(Averages(-4.0, [-3.0] + rest), -2.5) == 1 && -2.5 !in Averages(-4.0, [-3.0] + rest)
  {
    hide Below, Equal;
    NoneIsBelow(Averages(-3.0, rest), -2.5);
    NoneIsBelow(Averages(-4.0, rest), -2.5);
    assert Averages(-4.0, [-3.0] + rest) == [-3.5] + Averages(-4.0, rest);
    CountsSplit([-3.5], Averages(-4.0, rest), -2.5);
    CountOne(-3.5, -2.5);
  }

  /** Three of its pairwise averages lie below -2.5. */
  lemma ThreeBelow()
    ensures -2.5 !in Walsh(ONE_ZERO, 0) && Fewer(ONE_ZERO, -2.5) == 3
  {
    hide Walsh, Below, Averages;
    var rest := [0.0, 1.0, 2.0, 5.0, 6.0, 7.0];
    assert forall i :: 0 <= i < |rest| ==> rest[i] >= 0.0;
    BelowFront(ONE_ZERO, -2.5);
    assert ONE_ZERO[1..] == [-3.0] + rest;
    BelowFront([-3.0] + rest, -2.5);
    assert ([-3.0] + rest)[1..] == rest;
    AveragesOnOneSide(rest, -2.5);
    NoneIsBelow(Walsh(rest, 0), -2.5);
    OneAverageBelow(rest);
    WalshLength(ONE_ZERO, 0);
  }

  lemma OneZeroNonzero()
    ensures Nonzero(ONE_ZERO) == [-4.0, -3.0] + [1.0, 2.0, 5.0, 6.0, 7.0]
  {
    var p := (x: real) => x != 0.0;
    var low, high := [-4.0, -3.0], [1.0, 2.0, 5.0, 6.0, 7.0];
    FilterNone(p, [0.0]);
    FilterAll(p, low);
    FilterAll(p, high);
    hide Filter;
    assert ONE_ZERO == low + ([0.0] + high);
    FilterSplits(p, low, [0.0] + high);
    FilterSplits(p, [0.0], high);
  }

  lemma OneZeroMagnitudes()
    ensures Magnitudes([-4.0, -3.0] + [1.0, 2.0, 5.0, 6.0, 7.0]) == [4.0, 3.0, 1.0, 2.0, 5.0, 6.0, 7.0]
    ensures Magnitudes(Shift(ONE_ZERO, -2.5)) == [1.5, 0.5, 2.5, 3.5, 4.5, 7.5, 8.5, 9.5]
  {
  }

  lemma OneZeroSteps()
    ensures multiset(Steps(ONE_ZERO)) == multiset(Evens(7)) && Nonzero(ONE_ZERO) != []
    ensures multiset(Steps(Shift(ONE_ZERO, -2.5))) == multiset(Evens(8))
  {
    hide DoubledRank, DoubledRanks, Walsh, Evens, Sort, Filter, Nonzero, Magnitudes, Shift;
    OneZeroNonzero();
    OneZeroMagnitudes();
    UntiedRanks([4.0, 3.0, 1.0, 2.0, 5.0, 6.0, 7.0]);
    ThreeBelow();
    ShiftOffAverages(ONE_ZERO, -2.5);
    ObservedIsPairs(Shift(ONE_ZERO, -2.5));
    UntiedRanks([1.5, 0.5, 2.5, 3.5, 4.5, 7.5, 8.5, 9.5]);
  }

  /** One zero is enough: an interval is reported and holds a shift that the test of the shifted differences rejects. */
  lemma OneZeroBreaksInversion(r: Report, shifted: Report)
    requires IsReport(ONE_ZERO, r) && IsReport(Shift(ONE_ZERO, -2.5), shifted)
    ensures r.interval.Some? && Covers(r.interval, -2.5)
    ensures shifted.pValue.Some? && shifted.pValue.value <= 0.05
  {
    hide Nonzero, Walsh, Fewer, Steps, SortedWalsh, IsCritical, PValue, Observed, Cut, Evens, Covers;
    var y := Shift(ONE_ZERO, -2.5);
    OneZeroSteps();
    ThreeBelow();
    ShiftedReport(ONE_ZERO, -2.5, shifted);
    var c :| IsCritical(Steps(ONE_ZERO), c) && r.interval == IntervalAt(SortedWalsh(ONE_ZERO), c);
    SameCritical(Steps(ONE_ZERO), Evens(7), c);
    CutOfSeven(c);
    CoversByAverages(ONE_ZERO, -2.5, c);
    ShiftOffAverages(ONE_ZERO, -2.5);
    ObservedIsPairs(y);
    var d :| IsCritical(Steps(y), d) && shifted.interval == IntervalAt(SortedWalsh(y), d);
    SameCritical(Steps(y), Evens(8), d);
    CutOfEight(d);
    AcceptedByAverages(ONE_ZERO, -2.5, d);
  }
}
