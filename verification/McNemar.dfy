/** Two-sided McNemar mid-p under the conditional Binomial(n, 1/2) (core/eval/memory_ablation.py),
    in exact arithmetic. */
module McNemar {
  import opened Basics
  import opened SubsetSums

  /** math.comb, by Pascal's rule. */
  function Comb(n: nat, k: nat): nat {
    if k == 0 then 1 else if n == 0 then 0 else Comb(n - 1, k - 1) + Comb(n - 1, k)
  }

  function HalfPow(n: nat): real {
    if n == 0 then 1.0 else HalfPow(n - 1) / 2.0
  }

  function BinomialProbability(n: nat, k: nat): real {
    Comb(n, k) as real * HalfPow(n)
  }

  function LowerStrict(n: nat, tail: nat): real {
    if tail == 0 then 0.0 else LowerStrict(n, tail - 1) + BinomialProbability(n, tail - 1)
  }

  datatype CountError = NegativeCount

  /** The value before it is capped at one. */
  function Uncapped(b: nat, c: nat): real {
    if b + c == 0 then 1.0
    else
      var tail := if b <= c then b else c;
      2.0 * (LowerStrict(b + c, tail) + 0.5 * BinomialProbability(b + c, tail))
  }

  function MidP(b: int, c: int): Result<real, CountError> {
    if b < 0 || c < 0 then Err(NegativeCount)
    else Ok(if Uncapped(b, c) < 1.0 then Uncapped(b, c) else 1.0)
  }

  // ---- binomial identities ----

  lemma {:induction false} CombBounds(n: nat, k: nat)
    ensures k > n ==> Comb(n, k) == 0
    ensures k <= n ==> Comb(n, k) > 0
    ensures Comb(n, n) == 1
  {
    if n > 0 && k > 0 {
      CombBounds(n - 1, k - 1);
      CombBounds(n - 1, k);
    }
    if n > 0 {
      CombBounds(n - 1, n);
    }
  }

  lemma {:induction false} CombMirror(n: nat, k: nat)
    requires k <= n
    ensures Comb(n, k) == Comb(n, n - k)
  {
    CombBounds(n, k);
    if 0 < k < n {
      CombMirror(n - 1, k - 1);
      CombMirror(n - 1, k);
    }
  }

  /** Sum of the first t binomial coefficients of row n. */
  ghost function Lower(n: nat, t: nat): nat {
    if t == 0 then 0 else Lower(n, t - 1) + Comb(n, t - 1)
  }

  lemma {:induction false} LowerPascal(n: nat, t: nat)
    requires n > 0 && t > 0
    ensures Lower(n, t) == Lower(n - 1, t) + Lower(n - 1, t - 1)
  {
    if t > 1 {
      LowerPascal(n, t - 1);
    }
  }

  lemma {:induction false} RowSum(n: nat)
    ensures Lower(n, n + 1) == Pow2(n)
  {
    if n > 0 {
      RowSum(n - 1);
      LowerPascal(n, n + 1);
      CombBounds(n - 1, n);
    } else {
      assert Lower(0, 1) == Lower(0, 0) + Comb(0, 0);
    }
  }

  /** The last t coefficients of a row add up to the same as the first t. */
  lemma {:induction false} UpperMirror(n: nat, t: nat)
    requires t <= n + 1
    ensures Lower(n, n + 1) == Lower(n, n + 1 - t) + Lower(n, t)
  {
    if t > 0 {
      UpperMirror(n, t - 1);
      CombMirror(n, t - 1);
    }
  }

  lemma {:induction false} LowerMonotone(n: nat, s: nat, t: nat)
    requires s <= t
    ensures Lower(n, s) <= Lower(n, t)
  {
    if s < t {
      LowerMonotone(n, s, t - 1);
    }
  }

  // ---- the p-value as a fraction of 2^n ----

  /** Numerator of the p-value over the 2^n equally likely splits of the discordant pairs. */
  ghost function Numerator(n: nat, tail: nat): nat {
    2 * Lower(n, tail) + Comb(n, tail)
  }

  lemma {:induction false} HalfPowPositive(n: nat)
    ensures HalfPow(n) > 0.0 && HalfPow(n) * Pow2(n) as real == 1.0
  {
    if n > 0 {
      HalfPowPositive(n - 1);
    }
  }

  lemma {:induction false} LowerStrictIs(n: nat, tail: nat)
    ensures LowerStrict(n, tail) == Lower(n, tail) as real * HalfPow(n)
  {
    if tail > 0 {
      LowerStrictIs(n, tail - 1);
    }
  }

  lemma EmptyCounts()
    ensures Numerator(0, 0) == 1 && HalfPow(0) == 1.0
  {
  }

  lemma Factor(l: nat, k: nat, h: real)
    ensures 2.0 * (l as real * h + 0.5 * (k as real * h)) == (2 * l + k) as real * h
  {
    var x, y := l as real, k as real;
    assert (2 * l + k) as real == 2.0 * x + y;
    assert 2.0 * (x * h + 0.5 * (y * h)) == (2.0 * x + y) * h;
  }

  lemma UncappedIs(b: nat, c: nat)
    ensures Uncapped(b, c) == Numerator(b + c, if b <= c then b else c) as real * HalfPow(b + c)
  {
    hide LowerStrict, Lower, Comb, HalfPow;
    var n, tail := b + c, if b <= c then b else c;
    if n == 0 {
      EmptyCounts();
    } else {
      LowerStrictIs(n, tail);
      Factor(Lower(n, tail), Comb(n, tail), HalfPow(n));
    }
  }

  /** Below the middle the numerator stays under 2^n; at the middle it reaches it. */
  lemma NumeratorBounds(n: nat, tail: nat)
    requires 2 * tail <= n
    ensures 0 < Numerator(n, tail) <= Pow2(n)
    ensures Numerator(n, tail) == Pow2(n) <==> 2 * tail == n
  {
    CombBounds(n, tail);
    RowSum(n);
    UpperMirror(n, tail);
    if 2 * tail < n {
      LowerMonotone(n, tail + 2, n + 1 - tail);
      CombBounds(n, tail + 1);
    }
  }

  /** For all discordant counts the p-value is symmetric, positive and at most one before the cap,
      and one exactly when the counts agree. */
  lemma MidPIsProbability(b: nat, c: nat)
    ensures Uncapped(b, c) == Uncapped(c, b)
    ensures 0.0 < Uncapped(b, c) <= 1.0
    ensures Uncapped(b, c) == 1.0 <==> b == c
    ensures MidP(b, c) == Ok(Uncapped(b, c))
  {
    hide Uncapped, HalfPow, Numerator, Pow2;
    var n, tail := b + c, if b <= c then b else c;
    UncappedIs(b, c);
    UncappedIs(c, b);
    NumeratorBounds(n, tail);
    HalfPowPositive(n);
    ScaleOrder(Numerator(n, tail) as real, Pow2(n) as real, HalfPow(n));
    ScaleOrder(0.0, Numerator(n, tail) as real, HalfPow(n));
  }

  lemma {:induction false} NumeratorGrows(n: nat, s: nat, t: nat)
    requires s < t <= n
    ensures Numerator(n, s) < Numerator(n, t)
  {
    CombBounds(n, t - 1);
    CombBounds(n, t);
    if s < t - 1 {
      NumeratorGrows(n, s, t - 1);
    }
  }

  /** With the number of discordant pairs fixed, a less lopsided split has a strictly larger p-value. */
  lemma MidPGrows(b: nat, c: nat, b': nat, c': nat)
    requires b + c == b' + c' && Min(b, c) < Min(b', c')
    ensures Uncapped(b, c) < Uncapped(b', c')
  {
    hide Uncapped, HalfPow, Numerator;
    UncappedIs(b, c);
    UncappedIs(b', c');
    NumeratorGrows(b + c, Min(b, c), Min(b', c'));
    HalfPowPositive(b + c);
    ScaleOrder(Numerator(b + c, Min(b, c)) as real, Numerator(b + c, Min(b', c')) as real, HalfPow(b + c));
  }

  // ---- what the coefficients count ----

  function Ones(n: nat): seq<nat> {
    if n == 0 then [] else Ones(n - 1) + [1]
  }

  lemma EmptyHits(total: int)
    ensures |Hits([], total)| == if total == 0 then 1 else 0
  {
    forall s ensures s in Hits([], total) <==> s == [] && total == 0 {
      HitsMember([], total, s);
    }
    assert Hits([], total) == if total == 0 then {[]} else {};
  }

  /** Comb(n, k) is the number of ways n fair outcomes fall with k on one side. */
  lemma {:induction false} CombCounts(n: nat, k: nat)
    ensures |Hits(Ones(n), k)| == Comb(n, k)
  {
    hide Hits;
    if n == 0 {
      EmptyHits(k);
    } else {
      HitsSplit(Ones(n - 1), 1, k);
      CombCounts(n - 1, k);
      if k > 0 {
        CombCounts(n - 1, k - 1);
      } else {
        NoHits(Ones(n - 1), -1);
        CombCounts(n - 1, 0);
        assert Comb(n, 0) == Comb(n - 1, 0);
      }
    }
  }

  /** Lower(n, t) counts the outcomes with fewer than t on one side. */
  lemma {:induction false} LowerCounts(n: nat, t: nat)
    ensures |AtMost(Ones(n), t - 1)| == Lower(n, t)
  {
    hide Hits, AtMost, Ones, Comb;
    if t == 0 {
      NoHits(Ones(n), -1);
    } else {
      LowerCounts(n, t - 1);
      CombCounts(n, t - 1);
      OneMoreTotal(Ones(n), t - 1);
    }
  }

  lemma Regroup(m: real, h: real, p: real)
    requires h * p == 1.0
    ensures m * h * p == m
  {
    assert m * h * p == m * (h * p);
  }

  /** The p-value read as a probability: over all splits of the discordant pairs, twice the chance of a
      smaller minority plus the chance of this one. */
  lemma MidPCountsSplits(b: nat, c: nat)
    ensures var n, tail := b + c, Min(b, c);
      Uncapped(b, c) * |AllSigns(n)| as real
      == (2 * |AtMost(Ones(n), tail - 1)| + |Hits(Ones(n), tail)|) as real
  {
    hide Uncapped, HalfPow, Hits, AtMost, Ones, Comb, Lower, AllSigns, Pow2;
    var n, tail := b + c, Min(b, c);
    UncappedIs(b, c);
    LowerCounts(n, tail);
    CombCounts(n, tail);
    SignsCount(n);
    HalfPowPositive(n);
    Regroup(Numerator(n, tail) as real, HalfPow(n), Pow2(n) as real);
  }
}
