/** What the reported estimate is, and how it moves with the data (core/eval/memory_ablation.py). */
module HodgesLehmann {
  import opened Basics
  import opened Sorting
  import opened SubsetSums
  import opened Ranks
  import opened SignedRank
  import opened SignedRankDuality

  // ---- the middle of the averages ----

  /** v is in the list, and in place k, from zero, when the list is put in order. */
  ghost predicate InPlace(s: seq<real>, v: real, k: nat) {
    Below(s, v) <= k < Below(s, v) + Equal(s, v)
  }

  lemma {:induction false} CountsInRange(s: seq<real>, v: real)
    ensures Below(s, v) + Equal(s, v) <= |s|
  {
    if s != [] {
      CountsInRange(s[..|s| - 1], v);
    }
  }

  lemma {:induction false} NotAboveAll(s: seq<real>, v: real)
    requires forall i :: 0 <= i < |s| ==> s[i] <= v
    ensures Below(s, v) + Equal(s, v) == |s|
  {
    if s != [] {
      NotAboveAll(s[..|s| - 1], v);
    }
  }

  /** In an ascending list the values up to v come first. */
  lemma {:induction false} UpToComesFirst(s: seq<real>, v: real, k: nat)
    requires k < |s| && forall i, j :: 0 <= i <= j < |s| ==> s[i] <= s[j]
    ensures s[k] <= v <==> k < Below(s, v) + Equal(s, v)
  {
    var n := |s| - 1;
    CountsInRange(s[..n], v);
    if k < n {
      UpToComesFirst(s[..n], v, k);
    } else if s[n] <= v {
      NotAboveAll(s, v);
    }
  }

  lemma SortedWalshPermutes(values: seq<real>)
    ensures multiset(SortedWalsh(values)) == multiset(Walsh(values, 0)) && |SortedWalsh(values)| == |Walsh(values, 0)|
  {
    SortPermutes(Walsh(values, 0), (a: real, b: real) => a <= b);
  }

  lemma SortedInPlace(values: seq<real>, k: nat)
    requires k < |SortedWalsh(values)|
    ensures InPlace(Walsh(values, 0), SortedWalsh(values)[k], k)
  {
    hide Below, Equal, Walsh, SortedWalsh;
    var s := SortedWalsh(values);
    SortedWalshFacts(values);
    BelowComesFirst(s, s[k], k);
    UpToComesFirst(s, s[k], k);
    SortedWalshPermutes(values);
    BelowPermutes(s, Walsh(values, 0), s[k]);
  }

  lemma {:induction false} WalshOfZeros(values: seq<real>)
    requires forall i :: 0 <= i < |values| ==> values[i] == 0.0
    ensures forall k :: 0 <= k < |Walsh(values, 0)| ==> Walsh(values, 0)[k] == 0.0
  {
    hide Walsh;
    if values != [] {
      WalshFront(values);
      WalshOfZeros(values[1..]);
    } else {
      WalshLength(values, 0);
    }
  }

  lemma ZerosMiddle(values: seq<real>)
    requires values != [] && Nonzero(values) == []
    ensures SortedWalsh(values) != [] && Median(SortedWalsh(values)) == 0.0
  {
    hide Walsh, SortedWalsh;
    AllZero(values);
    WalshOfZeros(values);
    SortedWalshPermutes(values);
    SortedWalshFacts(values);
    var s := SortedWalsh(values);
    assert |values| * (|values| + 1) > 0;
    forall k | 0 <= k < |s| ensures s[k] == 0.0 {
      assert s[k] in multiset(s);
      assert s[k] in Walsh(values, 0);
    }
  }

  lemma AllBounded()
    ensures |AtMost([], 0)| <= 1 && |AtLeast([], 0)| <= 1
  {
    forall s | s in AtMost([], 0) || s in AtLeast([], 0) ensures s == [] {
      WhereMember([], x => x <= 0, s);
      WhereMember([], x => x >= 0, s);
    }
    SubsetCounts(AtMost([], 0), {[]});
    SubsetCounts(AtLeast([], 0), {[]});
  }

  lemma NoSteps()
    ensures PValue([], 0) == 1.0
  {
    TailsNonempty([], []);
    assert SumTrue([], []) == 0;
    AllBounded();
  }

  /** The early answer for a sample without nonzero differences is what the general computation would give. */
  lemma ZerosAreNoException(values: seq<real>, r: Report)
    requires values != [] && Nonzero(values) == [] && IsReport(values, r)
    ensures SortedWalsh(values) != [] && r.hodgesLehmann == Some(Median(SortedWalsh(values)))
    ensures r.pValue == Some(PValue(Steps(values), Observed(values)))
  {
    hide Walsh, SortedWalsh;
    ZerosMiddle(values);
    assert Steps(values) == [] && Signs(values) == [];
    NoSteps();
  }

  /** e lies half way between the values low and high in the two middle places. */
  ghost predicate IsHalfWay(s: seq<real>, low: real, high: real, e: real)
    requires s != []
  {
    InPlace(s, low, (|s| - 1) / 2) && InPlace(s, high, |s| / 2) && e == (low + high) / 2.0
  }

  /** The estimate lies half way between the average in the lower middle place and the one in the upper middle place, which
      are the same if their number is odd. */
  lemma EstimateIsMiddle(values: seq<real>, r: Report)
    requires values != [] && IsReport(values, r)
    ensures r.hodgesLehmann.Some?
    ensures Walsh(values, 0) != [] && exists low, high :: IsHalfWay(Walsh(values, 0), low, high, r.hodgesLehmann.value)
  {
    hide Walsh, SortedWalsh, Nonzero, Steps, PValue, Observed, IsCritical, InPlace;
    if Nonzero(values) == [] {
      ZerosAreNoException(values, r);
    }
    SortedWalshPermutes(values);
    var s := SortedWalsh(values);
    SortedInPlace(values, (|s| - 1) / 2);
    SortedInPlace(values, |s| / 2);
    assert IsHalfWay(Walsh(values, 0), s[(|s| - 1) / 2], s[|s| / 2], r.hodgesLehmann.value);
  }

  /** Counts rise with the bound. */
  lemma {:induction false} MoreUpTo(s: seq<real>, v: real, w: real)
    ensures v <= w ==> Below(s, v) <= Below(s, w) && Below(s, v) + Equal(s, v) <= Below(s, w) + Equal(s, w)
    ensures v < w ==> Below(s, v) + Equal(s, v) <= Below(s, w)
  {
    if s != [] {
      MoreUpTo(s[..|s| - 1], v, w);
    }
  }

  /** At least half of the averages lie on either side of it. */
  lemma HalfOnEachSide(values: seq<real>, r: Report)
    requires values != [] && IsReport(values, r)
    ensures r.hodgesLehmann.Some?
    ensures var w, e := Walsh(values, 0), r.hodgesLehmann.value;
      2 * (Below(w, e) + Equal(w, e)) >= |w| && 2 * (|w| - Below(w, e)) >= |w|
  {
    hide Walsh, Below, Equal, IsReport;
    EstimateIsMiddle(values, r);
    var w, e := Walsh(values, 0), r.hodgesLehmann.value;
    var low, high :| IsHalfWay(w, low, high, e);
    MoreUpTo(w, high, low);
    if low <= e {
      MoreUpTo(w, low, e);
    }
    if e <= high {
      MoreUpTo(w, e, high);
    }
  }

  lemma NothingEqual()
    ensures Equal([], 0.0) == 0
  {
  }

  lemma {:induction false} NonzeroCount(values: seq<real>)
    ensures |Nonzero(values)| == |values| - Equal(values, 0.0)
  {
    hide Below, Equal;
    if values != [] {
      NonzeroCount(values[1..]);
      assert values == [values[0]] + values[1..];
      CountsSplit([values[0]], values[1..], 0.0);
      CountOne(values[0], 0.0);
    } else {
      NothingEqual();
    }
  }

  /** The effective sample is what is left without the zeros. */
  lemma EffectiveSample(values: seq<real>, r: Report)
    requires IsReport(values, r)
    ensures r.effectiveN == |values| - Equal(values, 0.0)
  {
    hide Nonzero, SortedWalsh, Steps, PValue, Observed, IsCritical, Equal;
    NonzeroCount(values);
    NonzeroCount([]);
  }

  // ---- shifting every difference ----

  lemma ShiftRow(values: seq<real>, theta: real, i: nat)
    requires i <= |values|
    ensures WalshRow(Shift(values, theta), i) == Shift(WalshRow(values, i), theta)
  {
  }

  lemma {:induction false} ShiftWalsh(values: seq<real>, theta: real, i: nat)
    requires i <= |values|
    ensures Walsh(Shift(values, theta), i) == Shift(Walsh(values, i), theta)
    decreases |values| - i
  {
    if i < |values| {
      ShiftWalsh(values, theta, i + 1);
      ShiftRow(values, theta, i);
    }
  }

  lemma {:induction false} ShiftPermutes(a: seq<real>, b: seq<real>, theta: real)
    requires multiset(a) == multiset(b)
    ensures multiset(Shift(a, theta)) == multiset(Shift(b, theta))
  {
    assert |multiset(a)| == |a| && |multiset(b)| == |b|;
    if a != [] {
      assert a[0] in multiset(b);
      var i :| 0 <= i < |b| && b[i] == a[0];
      RemoveOne(a, b, i);
      ShiftPermutes(a[1..], b[..i] + b[i + 1..], theta);
      assert Shift(a, theta) == [a[0] - theta] + Shift(a[1..], theta);
      assert Shift(b, theta) == Shift(b[..i], theta) + ([a[0] - theta] + Shift(b[i + 1..], theta));
      assert Shift(b[..i] + b[i + 1..], theta) == Shift(b[..i], theta) + Shift(b[i + 1..], theta);
    }
  }

  lemma ShiftSortedWalsh(values: seq<real>, theta: real)
    ensures SortedWalsh(Shift(values, theta)) == Shift(SortedWalsh(values), theta)
  {
    hide Walsh;
    var le := (a: real, b: real) => a <= b;
    var s, t := SortedWalsh(values), SortedWalsh(Shift(values, theta));
    ShiftWalsh(values, theta, 0);
    SortPermutes(Walsh(values, 0), le);
    SortPermutes(Walsh(Shift(values, theta), 0), le);
    ShiftPermutes(s, Walsh(values, 0), theta);
    SortedWalshFacts(values);
    SortSorts(Walsh(Shift(values, theta), 0), le);
    assert SortedBy(Shift(s, theta), le);
    SortedUnique(t, Shift(s, theta), le);
  }

  lemma EstimateIsMedian(values: seq<real>, r: Report)
    requires values != [] && IsReport(values, r)
    ensures SortedWalsh(values) != [] && r.hodgesLehmann == Some(Median(SortedWalsh(values)))
  {
    hide Walsh, SortedWalsh, Nonzero, Steps, PValue, Observed, IsCritical, Median;
    if Nonzero(values) == [] {
      ZerosAreNoException(values, r);
    }
  }

  lemma MedianShifts(s: seq<real>, theta: real)
    requires s != []
    ensures Shift(s, theta) != [] && Median(Shift(s, theta)) == Median(s) - theta
  {
  }

  /** The estimate moves with the data. */
  lemma EstimateShifts(values: seq<real>, theta: real, r: Report, shifted: Report)
    requires values != [] && IsReport(values, r) && IsReport(Shift(values, theta), shifted)
    ensures r.hodgesLehmann.Some? && shifted.hodgesLehmann == Some(r.hodgesLehmann.value - theta)
  {
    hide Walsh, SortedWalsh, Nonzero, Steps, PValue, Observed, IsCritical, Median;
    EstimateIsMedian(values, r);
    EstimateIsMedian(Shift(values, theta), shifted);
    ShiftSortedWalsh(values, theta);
    MedianShifts(SortedWalsh(values), theta);
  }
}
