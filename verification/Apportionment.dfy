/** Section budgets: largest-remainder shares of the tokens left after the headings
    (core/context/compiler.py). Weights are kept in hundredths, so every quota is an
    integer multiple of 1/WeightTotal and no rounding is involved. */
module Apportionment {
  import opened Basics
  import opened Sorting

  datatype Section =
    CurrentState | TaskSpec | Assets | Workflow | Errors | Evidence | Learnings | KeyResults

  const SECTION_NAMES: seq<Section> :=
    [CurrentState, TaskSpec, Assets, Workflow, Errors, Evidence, Learnings, KeyResults]

  function Weight(name: Section): nat {
    match name
    case CurrentState => 4
    case TaskSpec => 16
    case Assets => 10
    case Workflow => 10
    case Errors => 5
    case Evidence => 35
    case Learnings => 10
    case KeyResults => 10
  }

  function Index(name: Section): nat {
    match name
    case CurrentState => 0
    case TaskSpec => 1
    case Assets => 2
    case Workflow => 3
    case Errors => 4
    case Evidence => 5
    case Learnings => 6
    case KeyResults => 7
  }

  /** Sum of a map's values along a list of its keys. */
  function Total(names: seq<Section>, m: map<Section, int>): int
    requires forall s :: s in names ==> s in m
  {
    if names == [] then 0 else m[names[0]] + Total(names[1..], m)
  }

  function WeightTotal(names: seq<Section>): nat {
    if names == [] then 0 else Weight(names[0]) + WeightTotal(names[1..])
  }

  /** The exact quota of a section is Floor + Frac / weightTotal. */
  function Floor(available: nat, weightTotal: nat, name: Section): nat
    requires weightTotal > 0
  {
    available * Weight(name) / weightTotal
  }

  function Frac(available: nat, weightTotal: nat, name: Section): nat
    requires weightTotal > 0
  {
    available * Weight(name) % weightTotal
  }

  function Floors(names: seq<Section>, available: nat, weightTotal: nat): map<Section, int>
    requires weightTotal > 0
  {
    map s | s in names :: Floor(available, weightTotal, s)
  }

  /** Largest fractional part first, earlier section first among equals. */
  predicate RoundsBefore(available: nat, weightTotal: nat, a: Section, b: Section)
    requires weightTotal > 0
  {
    var fa, fb := Frac(available, weightTotal, a), Frac(available, weightTotal, b);
    fa > fb || (fa == fb && Index(a) <= Index(b))
  }

  function RoundingOrder(names: seq<Section>, available: nat, weightTotal: nat): seq<Section>
    requires weightTotal > 0
  {
    Sort(names, (a, b) => RoundsBefore(available, weightTotal, a, b))
  }

  function Remainder(names: seq<Section>, available: nat, weightTotal: nat): int
    requires weightTotal > 0
  {
    available - Total(names, Floors(names, available, weightTotal))
  }

  function Chosen(names: seq<Section>, available: nat): seq<Section>
    requires WeightTotal(names) > 0
  {
    var w := WeightTotal(names);
    Take(RoundingOrder(names, available, w), Remainder(names, available, w))
  }

  function Shares(names: seq<Section>, available: nat): map<Section, int>
    requires WeightTotal(names) > 0
  {
    var chosen := Chosen(names, available);
    map s | s in names :: Floor(available, WeightTotal(names), s) + if s in chosen then 1 else 0
  }

  lemma ChosenOnce(names: seq<Section>, available: nat)
    requires WeightTotal(names) > 0 && Distinct(names)
    ensures Distinct(Chosen(names, available)) && forall s :: s in Chosen(names, available) ==> s in names
  {
    hide RoundsBefore, Remainder;
    var w := WeightTotal(names);
    var le := (a, b) => RoundsBefore(available, w, a, b);
    SortPermutes(names, le);
    SortMembers(names, le);
    DistinctPermutes(names, RoundingOrder(names, available, w));
  }

  method Apportion(names: seq<Section>, available: nat) returns (budgets: map<Section, int>)
    requires WeightTotal(names) > 0 && Distinct(names)
    ensures budgets == Shares(names, available)
  {
    hide Floor, Frac, RoundsBefore, RoundingOrder, WeightTotal, Remainder;
    var w := WeightTotal(names);
    budgets := Floors(names, available, w);
    var chosen := Take(RoundingOrder(names, available, w), Remainder(names, available, w));
    ChosenOnce(names, available);
    for i := 0 to |chosen|
      invariant budgets.Keys == set s | s in names
      invariant forall s :: s in names ==>
        budgets[s] == Floor(available, w, s) + if s in chosen[..i] then 1 else 0
    {
      assert chosen[..i + 1] == chosen[..i] + [chosen[i]];
      budgets := budgets[chosen[i] := budgets[chosen[i]] + 1];
    }
    assert chosen[..|chosen|] == chosen;
  }

  // ---- sums ----

  lemma {:induction false} TotalSplits(a: seq<Section>, b: seq<Section>, m: map<Section, int>)
    requires forall s :: s in a + b ==> s in m
    ensures Total(a + b, m) == Total(a, m) + Total(b, m)
  {
    if a == [] {
      assert a + b == b;
    } else {
      assert a + b == [a[0]] + (a[1..] + b);
      TotalSplits(a[1..], b, m);
    }
  }

  lemma {:induction false} TotalPermutes(a: seq<Section>, b: seq<Section>, m: map<Section, int>)
    requires multiset(a) == multiset(b) && forall s :: s in a ==> s in m
    ensures forall s :: s in b ==> s in m
    ensures Total(a, m) == Total(b, m)
  {
    forall s | s in b ensures s in m { assert s in multiset(a); }
    if a == [] {
      assert |multiset(b)| == 0;
    } else {
      assert a[0] in multiset(b);
      var i :| 0 <= i < |b| && b[i] == a[0];
      RemoveOne(a, b, i);
      assert b == b[..i] + ([b[i]] + b[i + 1..]);
      TotalPermutes(a[1..], b[..i] + b[i + 1..], m);
      TotalSplits(b[..i], b[i + 1..], m);
      TotalSplits(b[..i], [b[i]] + b[i + 1..], m);
    }
  }

  lemma {:induction false} TotalAdds(names: seq<Section>, m: map<Section, int>, a: map<Section, int>, b: map<Section, int>)
    requires forall s :: s in names ==> s in m && s in a && s in b && m[s] == a[s] + b[s]
    ensures Total(names, m) == Total(names, a) + Total(names, b)
  {
    if names != [] {
      TotalAdds(names[1..], m, a, b);
    }
  }

  lemma {:induction false} TotalConstant(names: seq<Section>, m: map<Section, int>, c: int)
    requires forall s :: s in names ==> s in m && m[s] == c
    ensures Total(names, m) == c * |names|
  {
    if names != [] {
      TotalConstant(names[1..], m, c);
    }
  }

  lemma {:induction false} TotalAtMost(names: seq<Section>, m: map<Section, int>, c: int)
    requires forall s :: s in names ==> s in m && m[s] <= c
    ensures Total(names, m) <= c * |names|
  {
    if names != [] {
      TotalAtMost(names[1..], m, c);
    }
  }

  // ---- the shares ----

  ghost function Fracs(names: seq<Section>, available: nat, w: nat): map<Section, int>
    requires w > 0
  {
    map s | s in names :: Frac(available, w, s)
  }

  lemma QuotaParts(available: nat, w: nat, name: Section)
    requires w > 0
    ensures w * Floor(available, w, name) + Frac(available, w, name) == available * Weight(name)
    ensures 0 <= Frac(available, w, name) < w
  {
  }

  lemma Distribute(x: int, a: int, b: int)
    ensures x * (a + b) == x * a + x * b
  {
  }

  /** What the floors leave over is exactly the fractional parts, in units of the weight total. */
  lemma {:induction false} FracsFillRemainder(names: seq<Section>, all: seq<Section>, available: nat, w: nat)
    requires w > 0 && forall s :: s in names ==> s in all
    ensures w * Total(names, Floors(all, available, w)) + Total(names, Fracs(all, available, w))
            == available * WeightTotal(names)
  {
    hide Floor, Frac, Weight;
    if names != [] {
      FracsFillRemainder(names[1..], all, available, w);
      var s := names[0];
      QuotaParts(available, w, s);
      Distribute(w, Floor(available, w, s), Total(names[1..], Floors(all, available, w)));
      Distribute(available, Weight(s), WeightTotal(names[1..]));
    }
  }

  lemma {:induction false} OrderIsTotal(available: nat, w: nat)
    requires w > 0
    ensures TotalPreorder((a, b) => RoundsBefore(available, w, a, b))
  {
  }

  lemma NonEmpty(names: seq<Section>)
    requires WeightTotal(names) > 0
    ensures names != []
  {
  }

  lemma RemainderTimesWeight(names: seq<Section>, available: nat, w: nat)
    requires w > 0 && w == WeightTotal(names)
    ensures w * Remainder(names, available, w) == Total(names, Fracs(names, available, w))
  {
    hide Floor, Frac, WeightTotal;
    FracsFillRemainder(names, names, available, w);
    Distribute(w, available, -Total(names, Floors(names, available, w)));
  }

  lemma TooFew(w: nat, rem: int, i: int)
    requires w > 0 && 0 <= i < rem
    ensures w * rem > (w - 1) * i
  {
    Distribute(w, i, rem - i);
    Distribute(i, w, -1);
  }

  lemma RemBounds(w: nat, rem: int, n: nat)
    requires w > 0 && 0 <= w * rem <= (w - 1) * n && n > 0
    ensures 0 <= rem < n
  {
    assert (w - 1) * n == w * n - n;
    assert w * (n - rem) > 0;
  }

  lemma {:induction false} TotalNonnegative(names: seq<Section>, m: map<Section, int>)
    requires forall s :: s in names ==> s in m && m[s] >= 0
    ensures Total(names, m) >= 0
  {
    if names != [] {
      TotalNonnegative(names[1..], m);
    }
  }

  lemma {:induction false} FracBounds(names: seq<Section>, available: nat, w: nat)
    requires w > 0
    ensures 0 <= Total(names, Fracs(names, available, w)) <= (w - 1) * |names|
  {
    TotalAtMost(names, Fracs(names, available, w), w - 1);
    TotalNonnegative(names, Fracs(names, available, w));
  }

  /** Sorted by falling fraction, everything from a zero fraction on is zero. */
  lemma ZeroTail(order: seq<Section>, i: nat, available: nat, w: nat, fracs: map<Section, int>)
    requires w > 0 && i < |order| && Frac(available, w, order[i]) == 0
    requires forall p, q :: 0 <= p < q < |order| ==> RoundsBefore(available, w, order[p], order[q])
    requires forall s :: s in order ==> s in fracs && fracs[s] == Frac(available, w, s)
    ensures Total(order, fracs) <= (w - 1) * i
  {
    assert order == order[..i] + order[i..];
    TotalSplits(order[..i], order[i..], fracs);
    TotalAtMost(order[..i], fracs, w - 1);
    forall s | s in order[i..] ensures fracs[s] == 0 {
      var k :| 0 <= k < |order| - i && order[i..][k] == s;
      if k > 0 { assert RoundsBefore(available, w, order[i], order[i + k]); }
    }
    TotalConstant(order[i..], fracs, 0);
  }

  /** The rounding order lists the sections once each; the sections rounded up are its first
      Remainder ones, all of them with a fractional part to round. */
  lemma RoundingFacts(names: seq<Section>, available: nat)
    requires WeightTotal(names) > 0 && Distinct(names)
    ensures var w := WeightTotal(names); var order := RoundingOrder(names, available, w);
      && multiset(order) == multiset(names) && Distinct(order) && |order| == |names|
      && 0 <= Remainder(names, available, w) < |names|
      && (forall i, j :: 0 <= i < j < |order| ==> RoundsBefore(available, w, order[i], order[j]))
      && (forall i :: 0 <= i < Remainder(names, available, w) ==> Frac(available, w, order[i]) > 0)
  {
    hide Floor, Frac, WeightTotal, RoundsBefore;
    var w := WeightTotal(names);
    var le := (a, b) => RoundsBefore(available, w, a, b);
    var order := RoundingOrder(names, available, w);
    SortPermutes(names, le);
    DistinctPermutes(names, order);
    OrderIsTotal(available, w);
    SortSorts(names, le);
    forall i, j | 0 <= i < j < |order| ensures RoundsBefore(available, w, order[i], order[j]) {
      assert le(order[i], order[j]);
    }
    var fracs, rem := Fracs(names, available, w), Remainder(names, available, w);
    RemainderTimesWeight(names, available, w);
    FracBounds(names, available, w);
    assert names != [] by { NonEmpty(names); }
    RemBounds(w, rem, |names|);
    TotalPermutes(names, order, fracs);
    forall i | 0 <= i < rem ensures Frac(available, w, order[i]) > 0 {
      if Frac(available, w, order[i]) == 0 {
        ZeroTail(order, i, available, w, fracs);
        TooFew(w, rem, i);
      }
    }
  }

  lemma RoundsBeforeMeans(available: nat, w: nat, a: Section, b: Section)
    requires w > 0 && RoundsBefore(available, w, a, b) && a != b
    ensures Frac(available, w, a) > Frac(available, w, b)
         || (Frac(available, w, a) == Frac(available, w, b) && Index(a) < Index(b))
  {
  }

  /** Which sections are rounded up: the first Remainder ones of the rounding order. */
  lemma RoundedUp(names: seq<Section>, available: nat) returns (order: seq<Section>, rem: nat)
    requires WeightTotal(names) > 0 && Distinct(names)
    ensures var w := WeightTotal(names);
      && multiset(order) == multiset(names) && Distinct(order) && rem < |order|
      && (forall i, j :: 0 <= i < j < |order| ==> RoundsBefore(available, w, order[i], order[j]))
      && (forall i :: 0 <= i < rem ==> Frac(available, w, order[i]) > 0)
      && rem + Total(names, Floors(names, available, w)) == available
      && forall s :: s in names ==>
           Shares(names, available)[s] == Floor(available, w, s) + if s in order[..rem] then 1 else 0
  {
    hide Floor, Frac, WeightTotal, RoundsBefore;
    var w := WeightTotal(names);
    RoundingFacts(names, available);
    order, rem := RoundingOrder(names, available, w), Remainder(names, available, w);
    assert Chosen(names, available) == order[..rem];
  }

  lemma SharesKeys(names: seq<Section>, available: nat)
    requires WeightTotal(names) > 0
    ensures Shares(names, available).Keys == set s | s in names
  {
  }

  /** The shares use up the available tokens exactly. */
  lemma SharesAddUp(names: seq<Section>, available: nat)
    requires WeightTotal(names) > 0 && Distinct(names)
    ensures Total(names, Shares(names, available)) == available
  {
    hide Floor, Frac, WeightTotal, RoundsBefore, Shares;
    var w, m := WeightTotal(names), Shares(names, available);
    var order, rem := RoundedUp(names, available);
    var up := map s | s in names :: if s in order[..rem] then 1 else 0;
    SharesKeys(names, available);
    TotalAdds(names, m, Floors(names, available, w), up);
    TotalPermutes(names, order, up);
    assert order == order[..rem] + order[rem..];
    TotalSplits(order[..rem], order[rem..], up);
    TotalConstant(order[..rem], up, 1);
    TotalConstant(order[rem..], up, 0);
  }

  /** Each share is its quota rounded down or up, and a quota that is exact is left alone. */
  lemma SharesAreRounded(names: seq<Section>, available: nat, s: Section)
    requires WeightTotal(names) > 0 && Distinct(names) && s in names
    ensures var w, share := WeightTotal(names), Shares(names, available)[s];
      && Floor(available, w, s) <= share <= Floor(available, w, s) + 1
      && (Frac(available, w, s) == 0 ==> share == Floor(available, w, s))
  {
    hide Floor, Frac, WeightTotal, RoundsBefore, Shares;
    var order, rem := RoundedUp(names, available);
  }

  /** No section is rounded up ahead of one with a larger fractional part. */
  lemma SharesAreFair(names: seq<Section>, available: nat, s: Section, t: Section)
    requires WeightTotal(names) > 0 && Distinct(names) && s in names && t in names
    requires var w, m := WeightTotal(names), Shares(names, available);
      m[s] > Floor(available, w, s) && m[t] == Floor(available, w, t)
    ensures var w := WeightTotal(names);
      Frac(available, w, s) > Frac(available, w, t)
      || (Frac(available, w, s) == Frac(available, w, t) && Index(s) < Index(t))
  {
    hide Floor, Frac, WeightTotal, RoundsBefore, Shares;
    var order, rem := RoundedUp(names, available);
    assert t in multiset(order);
    var i :| 0 <= i < rem && order[i] == s;
    var j :| 0 <= j < |order| && order[j] == t;
    assert t !in order[..rem];
    RoundsBeforeMeans(available, WeightTotal(names), order[i], order[j]);
  }

  lemma WeightOfCons(name: Section, rest: seq<Section>)
    ensures WeightTotal([name] + rest) == Weight(name) + WeightTotal(rest)
  {
    assert ([name] + rest)[1..] == rest;
  }

  lemma NoWeight()
    ensures WeightTotal([]) == 0
  {
  }

  /** The eight published weights add up to one. */
  lemma WeightsAddUp()
    ensures WeightTotal(SECTION_NAMES) == 100 && Distinct(SECTION_NAMES)
  {
    hide WeightTotal;
    NoWeight();
    WeightOfCons(KeyResults, []);
    WeightOfCons(Learnings, SECTION_NAMES[7..]);
    WeightOfCons(Evidence, SECTION_NAMES[6..]);
    WeightOfCons(Errors, SECTION_NAMES[5..]);
    WeightOfCons(Workflow, SECTION_NAMES[4..]);
    WeightOfCons(Assets, SECTION_NAMES[3..]);
    WeightOfCons(TaskSpec, SECTION_NAMES[2..]);
    WeightOfCons(CurrentState, SECTION_NAMES[1..]);
    forall i | 0 <= i < 7 ensures SECTION_NAMES[i..] == [SECTION_NAMES[i]] + SECTION_NAMES[i + 1..] {}
    assert SECTION_NAMES[7..] == [KeyResults] + [];
    assert SECTION_NAMES == SECTION_NAMES[0..];
    assert forall i :: 0 <= i < 8 ==> Index(SECTION_NAMES[i]) == i;
  }
}
