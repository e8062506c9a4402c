/** The exact null distribution of the signed-rank statistic: how many sign assignments reach
    each doubled rank sum (core/eval/memory_ablation.py). */
module SubsetSums {
  import opened Sorting

  function Pow2(n: nat): nat {
    if n == 0 then 1 else 2 * Pow2(n - 1)
  }

  ghost function Extend(a: set<seq<bool>>, b: bool): set<seq<bool>> {
    set s | s in a :: s + [b]
  }

  /** All assignments of a sign to n differences. */
  ghost function AllSigns(n: nat): set<seq<bool>> {
    if n == 0 then {[]} else Extend(AllSigns(n - 1), false) + Extend(AllSigns(n - 1), true)
  }

  /** Sum of the steps whose sign is positive. */
  function SumTrue(steps: seq<nat>, signs: seq<bool>): nat
    requires |signs| == |steps|
  {
    if steps == [] then 0
    else SumTrue(steps[..|steps| - 1], signs[..|steps| - 1]) + if signs[|steps| - 1] then steps[|steps| - 1] else 0
  }

  function SumAll(steps: seq<nat>): nat {
    if steps == [] then 0 else SumAll(steps[..|steps| - 1]) + steps[|steps| - 1]
  }

  lemma {:induction false} SignsHaveLength(n: nat)
    ensures forall s :: s in AllSigns(n) <==> |s| == n
  {
    if n > 0 {
      SignsHaveLength(n - 1);
      forall s ensures s in AllSigns(n) <==> |s| == n {
        if |s| == n {
          var t := s[..n - 1];
          assert t in AllSigns(n - 1);
          assert s == t + [s[n - 1]];
          assert if s[n - 1] then s in Extend(AllSigns(n - 1), true) else s in Extend(AllSigns(n - 1), false);
        }
      }
    } else {
      assert forall s: seq<bool> :: |s| == 0 ==> s == [];
    }
  }

  lemma {:induction false} ExtendCounts(a: set<seq<bool>>, b: bool)
    ensures |Extend(a, b)| == |a|
  {
    if a != {} {
      var s :| s in a;
      ExtendCounts(a - {s}, b);
      assert Extend(a, b) == Extend(a - {s}, b) + {s + [b]};
      assert s + [b] !in Extend(a - {s}, b) by {
        forall t | t in a - {s} ensures t + [b] != s + [b] {
          assert (t + [b])[..|t|] == t && (s + [b])[..|s|] == s;
        }
      }
    }
  }

  lemma ExtendsApart(a: set<seq<bool>>, b: set<seq<bool>>)
    ensures Extend(a, false) !! Extend(b, true)
  {
    forall s, t | s in a && t in b ensures s + [false] != t + [true] {
      var x, y := s + [false], t + [true];
      assert x[|x| - 1] == false && y[|y| - 1] == true;
    }
  }

  lemma {:induction false} SignsCount(n: nat)
    ensures |AllSigns(n)| == Pow2(n)
  {
    if n > 0 {
      SignsCount(n - 1);
      ExtendCounts(AllSigns(n - 1), false);
      ExtendCounts(AllSigns(n - 1), true);
      ExtendsApart(AllSigns(n - 1), AllSigns(n - 1));
    }
  }

  /** The assignments whose sum of positive steps satisfies p. */
  ghost function Where(steps: seq<nat>, p: int -> bool): set<seq<bool>> {
    SignsHaveLength(|steps|);
    set s | s in AllSigns(|steps|) && p(SumTrue(steps, s))
  }

  lemma WhereMember(steps: seq<nat>, p: int -> bool, s: seq<bool>)
    ensures s in Where(steps, p) <==> |s| == |steps| && p(SumTrue(steps, s))
  {
    SignsHaveLength(|steps|);
  }

  /** Those that reach a given total. */
  ghost function Hits(steps: seq<nat>, total: int): set<seq<bool>> {
    Where(steps, x => x == total)
  }

  lemma HitsMember(steps: seq<nat>, total: int, s: seq<bool>)
    ensures s in Hits(steps, total) <==> |s| == |steps| && SumTrue(steps, s) == total
  {
    WhereMember(steps, x => x == total, s);
  }

  /** One more step: the assignments split by its sign. */
  lemma HitsSplit(steps: seq<nat>, step: nat, total: int)
    ensures Hits(steps + [step], total) == Extend(Hits(steps, total), false) + Extend(Hits(steps, total - step), true)
    ensures |Hits(steps + [step], total)| == |Hits(steps, total)| + |Hits(steps, total - step)|
  {
    var longer := steps + [step];
    assert longer[..|longer| - 1] == steps;
    forall s ensures s in Hits(longer, total) <==> s in Extend(Hits(steps, total), false) + Extend(Hits(steps, total - step), true) {
      HitsMember(longer, total, s);
      if |s| == |longer| {
        var t := s[..|steps|];
        assert s == t + [s[|steps|]];
        HitsMember(steps, total, t);
        HitsMember(steps, total - step, t);
      }
      if s in Extend(Hits(steps, total), false) {
        var t :| t in Hits(steps, total) && s == t + [false];
        HitsMember(steps, total, t);
        assert s[..|steps|] == t;
      }
      if s in Extend(Hits(steps, total - step), true) {
        var t :| t in Hits(steps, total - step) && s == t + [true];
        HitsMember(steps, total - step, t);
        assert s[..|steps|] == t;
      }
    }
    ExtendCounts(Hits(steps, total), false);
    ExtendCounts(Hits(steps, total - step), true);
    ExtendsApart(Hits(steps, total), Hits(steps, total - step));
  }

  ghost predicate Entry(steps: seq<nat>, m: map<int, nat>, t: int) {
    var h := Hits(steps, t);
    if h == {} then t !in m else t in m && m[t] == |h|
  }

  /** m holds every reachable sum, with the number of assignments that reach it. */
  ghost predicate IsDistribution(steps: seq<nat>, m: map<int, nat>) {
    forall t :: Entry(steps, m, t)
  }

  function Get(m: map<int, nat>, t: int): nat {
    if t in m then m[t] else 0
  }

  ghost predicate MovedAt(before: map<int, nat>, after: map<int, nat>, step: nat, done: set<int>, t: int) {
    && (t in after <==> t in before || t - step in done)
    && Get(after, t) == Get(before, t) + if t - step in done then Get(before, t - step) else 0
  }

  /** The dictionary after the sums in done have been moved up by step. */
  ghost predicate Moved(before: map<int, nat>, after: map<int, nat>, step: nat, done: set<int>) {
    forall t :: MovedAt(before, after, step, done, t)
  }

  lemma NothingMoved(m: map<int, nat>, step: nat)
    ensures Moved(m, m, step, {})
  {
  }

  lemma MoveOne(before: map<int, nat>, after: map<int, nat>, step: nat, done: set<int>, total: int)
    requires Moved(before, after, step, done) && total in before && total !in done
    ensures Moved(before, after[total + step := Get(after, total + step) + before[total]], step, done + {total})
  {
    var next := after[total + step := Get(after, total + step) + before[total]];
    forall t ensures MovedAt(before, next, step, done + {total}, t) {
      assert MovedAt(before, after, step, done, t);
    }
  }

  method AddStep(distribution: map<int, nat>, step: nat) returns (updated: map<int, nat>)
    ensures Moved(distribution, updated, step, distribution.Keys)
  {
    hide Moved, MovedAt;
    updated := distribution;
    var left := distribution.Keys;
    NothingMoved(distribution, step);
    ghost var done: set<int> := {};
    while left != {}
      invariant left <= distribution.Keys && done == distribution.Keys - left
      invariant Moved(distribution, updated, step, done)
      decreases left
    {
      assert exists total :: total in left by {
        if forall total :: total !in left {
          assert false;
        }
      }
      var total :| total in left;
      MoveOne(distribution, updated, step, done, total);
      updated := updated[total + step := Get(updated, total + step) + distribution[total]];
      left := left - {total};
      done := done + {total};
    }
    assert done == distribution.Keys;
  }

  lemma NoStepsDistribution()
    ensures IsDistribution([], map[0 := 1])
  {
    hide Hits;
    forall t ensures Entry([], map[0 := 1], t) {
      forall s ensures s in Hits([], t) <==> s == [] && t == 0 {
        HitsMember([], t, s);
      }
      assert Hits([], t) == if t == 0 then {[]} else {};
    }
  }

  lemma EmptyIffZero(a: set<seq<bool>>)
    ensures a == {} <==> |a| == 0
  {
  }

  lemma StepDistribution(steps: seq<nat>, step: nat, before: map<int, nat>, after: map<int, nat>)
    requires IsDistribution(steps, before) && Moved(before, after, step, before.Keys)
    ensures IsDistribution(steps + [step], after)
  {
    hide Hits;
    forall t ensures Entry(steps + [step], after, t) {
      HitsSplit(steps, step, t);
      assert Entry(steps, before, t) && Entry(steps, before, t - step);
      assert MovedAt(before, after, step, before.Keys, t);
      EmptyIffZero(Hits(steps + [step], t));
      EmptyIffZero(Hits(steps, t));
      EmptyIffZero(Hits(steps, t - step));
    }
  }

  method SubsetSumDistribution(steps: seq<nat>) returns (distribution: map<int, nat>)
    ensures IsDistribution(steps, distribution)
  {
    hide IsDistribution, Moved;
    distribution := map[0 := 1];
    NoStepsDistribution();
    assert steps[..0] == [];
    for i := 0 to |steps|
      invariant IsDistribution(steps[..i], distribution)
    {
      var updated := AddStep(distribution, steps[i]);
      assert steps[..i + 1] == steps[..i] + [steps[i]];
      StepDistribution(steps[..i], steps[i], distribution, updated);
      distribution := updated;
    }
    assert steps[..|steps|] == steps;
  }

  // ---- symmetry ----

  function Flip(signs: seq<bool>): (f: seq<bool>)
    ensures |f| == |signs|
    ensures forall i :: 0 <= i < |f| ==> f[i] == !signs[i]
  {
    seq(|signs|, i requires 0 <= i < |signs| => !signs[i])
  }

  lemma {:induction false} FlipSum(steps: seq<nat>, signs: seq<bool>)
    requires |signs| == |steps|
    ensures SumTrue(steps, Flip(signs)) == SumAll(steps) - SumTrue(steps, signs)
  {
    if steps != [] {
      var n := |steps| - 1;
      FlipSum(steps[..n], signs[..n]);
      assert Flip(signs)[..n] == Flip(signs[..n]);
    }
  }

  ghost function FlipAll(a: set<seq<bool>>): set<seq<bool>> {
    set s | s in a :: Flip(s)
  }

  lemma FlipTwice(s: seq<bool>)
    ensures Flip(Flip(s)) == s
  {
  }

  lemma {:induction false} FlipCounts(a: set<seq<bool>>)
    ensures |FlipAll(a)| == |a|
  {
    if a != {} {
      var s :| s in a;
      FlipCounts(a - {s});
      assert FlipAll(a) == FlipAll(a - {s}) + {Flip(s)};
      assert Flip(s) !in FlipAll(a - {s}) by {
        forall t | t in a - {s} ensures Flip(t) != Flip(s) {
          FlipTwice(s);
          FlipTwice(t);
        }
      }
    }
  }

  /** Flipping every sign mirrors the sums, so it carries the assignments for p onto those for q. */
  lemma WhereMirror(steps: seq<nat>, p: int -> bool, q: int -> bool)
    requires forall x :: q(SumAll(steps) - x) == p(x)
    ensures |Where(steps, q)| == |Where(steps, p)|
  {
    hide Where, SumAll, SumTrue, Flip;
    forall s ensures s in FlipAll(Where(steps, p)) <==> s in Where(steps, q) {
      WhereMember(steps, q, s);
      WhereMember(steps, p, Flip(s));
      FlipTwice(s);
      if |s| == |steps| {
        FlipSum(steps, s);
        assert q(SumAll(steps) - (SumAll(steps) - SumTrue(steps, s))) == p(SumAll(steps) - SumTrue(steps, s));
      }
      if s in FlipAll(Where(steps, p)) {
        var t :| t in Where(steps, p) && s == Flip(t);
        WhereMember(steps, p, t);
        FlipTwice(t);
      }
    }
    assert FlipAll(Where(steps, p)) == Where(steps, q);
    FlipCounts(Where(steps, p));
  }

  /** The assignments with a sum of at most, or at least, a bound. */
  ghost function AtMost(steps: seq<nat>, bound: int): set<seq<bool>> {
    Where(steps, x => x <= bound)
  }

  ghost function AtLeast(steps: seq<nat>, bound: int): set<seq<bool>> {
    Where(steps, x => x >= bound)
  }

  /** Flipping every sign exchanges the two tails. */
  lemma TailsMirror(steps: seq<nat>, bound: int)
    ensures |AtLeast(steps, SumAll(steps) - bound)| == |AtMost(steps, bound)|
  {
    var other := SumAll(steps) - bound;
    WhereMirror(steps, x => x <= bound, x => x >= other);
  }

  /** The distribution is symmetric about half the total. */
  lemma HitsMirror(steps: seq<nat>, total: int)
    ensures |Hits(steps, SumAll(steps) - total)| == |Hits(steps, total)|
  {
    var other := SumAll(steps) - total;
    WhereMirror(steps, x => x == total, x => x == other);
  }

  // ---- adding the counts up again ----

  lemma NoHits(steps: seq<nat>, total: int)
    requires total < 0
    ensures Hits(steps, total) == {} && AtMost(steps, total) == {}
  {
    forall s ensures s !in Hits(steps, total) && s !in AtMost(steps, total) {
      HitsMember(steps, total, s);
      WhereMember(steps, x => x <= total, s);
    }
  }

  lemma OneMoreTotal(steps: seq<nat>, total: int)
    ensures |AtMost(steps, total)| == |AtMost(steps, total - 1)| + |Hits(steps, total)|
  {
    var a, h := AtMost(steps, total - 1), Hits(steps, total);
    assert AtMost(steps, total) == a + h;
    assert a !! h;
  }

  // ---- the order of the steps does not matter ----

  /** A step may stand anywhere: its assignments split by its sign. */
  lemma {:induction false} HitsAnywhere(a: seq<nat>, x: nat, b: seq<nat>, total: int)
    ensures |Hits(a + [x] + b, total)| == |Hits(a + b, total)| + |Hits(a + b, total - x)|
    decreases |b|
  {
    hide Hits;
    if b == [] {
      assert a + [x] + b == a + [x] && a + b == a;
      HitsSplit(a, x, total);
    } else {
      var init, z := b[..|b| - 1], b[|b| - 1];
      assert a + [x] + b == (a + [x] + init) + [z] && a + b == (a + init) + [z];
      HitsSplit(a + [x] + init, z, total);
      HitsSplit(a + init, z, total);
      HitsSplit(a + init, z, total - x);
      HitsAnywhere(a, x, init, total);
      HitsAnywhere(a, x, init, total - z);
    }
  }

  lemma {:induction false} HitsPermute(a: seq<nat>, b: seq<nat>, total: int)
    requires multiset(a) == multiset(b)
    ensures |Hits(a, total)| == |Hits(b, total)|
  {
    hide Hits;
    assert |multiset(a)| == |a| && |multiset(b)| == |b|;
    if a != [] {
      assert a[0] in multiset(b);
      var i :| 0 <= i < |b| && b[i] == a[0];
      RemoveOne(a, b, i);
      assert [] + [a[0]] + a[1..] == a && [] + a[1..] == a[1..] && b[..i] + [b[i]] + b[i + 1..] == b;
      HitsAnywhere([], a[0], a[1..], total);
      HitsAnywhere(b[..i], b[i], b[i + 1..], total);
      HitsPermute(a[1..], b[..i] + b[i + 1..], total);
      HitsPermute(a[1..], b[..i] + b[i + 1..], total - a[0]);
    } else {
      assert b == [];
    }
  }

  lemma {:induction false} TailPermutes(a: seq<nat>, b: seq<nat>, bound: int)
    requires multiset(a) == multiset(b)
    ensures |AtMost(a, bound)| == |AtMost(b, bound)|
    decreases bound + 1
  {
    hide AtMost, Hits;
    if bound < 0 {
      NoHits(a, bound);
      NoHits(b, bound);
    } else {
      OneMoreTotal(a, bound);
      OneMoreTotal(b, bound);
      HitsPermute(a, b, bound);
      TailPermutes(a, b, bound - 1);
    }
  }

  /** Sum of the counts of the scores from lo up to, not including, hi. */
  function CountRange(m: map<int, nat>, lo: int, hi: int): nat
    decreases hi - lo
  {
    if lo >= hi then 0 else CountRange(m, lo, hi - 1) + Get(m, hi - 1)
  }

  lemma {:induction false} SumBounded(steps: seq<nat>, signs: seq<bool>)
    requires |signs| == |steps|
    ensures SumTrue(steps, signs) <= SumAll(steps)
  {
    if steps != [] {
      SumBounded(steps[..|steps| - 1], signs[..|steps| - 1]);
    }
  }

  ghost function Between(steps: seq<nat>, lo: int, hi: int): set<seq<bool>> {
    Where(steps, x => lo <= x < hi)
  }

  lemma {:induction false} CountRangeCounts(steps: seq<nat>, m: map<int, nat>, lo: int, hi: int)
    requires IsDistribution(steps, m)
    ensures CountRange(m, lo, hi) == |Between(steps, lo, hi)|
    decreases hi - lo
  {
    if lo < hi {
      CountRangeCounts(steps, m, lo, hi - 1);
      var a, h := Between(steps, lo, hi - 1), Hits(steps, hi - 1);
      assert Between(steps, lo, hi) == a + h;
      assert a !! h;
      assert Entry(steps, m, hi - 1);
    } else {
      assert Between(steps, lo, hi) == {};
    }
  }

  /** Cutting the range off at a bound beyond every sum loses nothing. */
  lemma BetweenIsTail(steps: seq<nat>, bound: int)
    ensures Between(steps, 0, bound + 1) == AtMost(steps, bound)
    ensures Between(steps, bound, SumAll(steps) + 1) == AtLeast(steps, bound)
  {
    SignsHaveLength(|steps|);
    forall s | s in AllSigns(|steps|) ensures SumTrue(steps, s) <= SumAll(steps) {
      SumBounded(steps, s);
    }
  }

  /** The counts of all scores add up to the number of assignments. */
  lemma DistributionTotal(steps: seq<nat>, m: map<int, nat>)
    requires IsDistribution(steps, m)
    ensures CountRange(m, 0, SumAll(steps) + 1) == Pow2(|steps|)
  {
    hide IsDistribution;
    CountRangeCounts(steps, m, 0, SumAll(steps) + 1);
    BetweenIsTail(steps, 0);
    forall s ensures s in AtLeast(steps, 0) <==> s in AllSigns(|steps|) {
      WhereMember(steps, x => x >= 0, s);
      SignsHaveLength(|steps|);
    }
    assert AtLeast(steps, 0) == AllSigns(|steps|);
    SignsCount(|steps|);
  }
}
