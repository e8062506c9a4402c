/** Tie-averaged ranks (core/eval/memory_ablation.py). */
module Ranks {
  import opened Sorting
  import opened SubsetSums

  /** How many values lie below v, and how many equal it. */
  function Below(values: seq<real>, v: real): nat {
    if values == [] then 0
    else Below(values[..|values| - 1], v) + if values[|values| - 1] < v then 1 else 0
  }

  function Equal(values: seq<real>, v: real): nat {
    if values == [] then 0
    else Equal(values[..|values| - 1], v) + if values[|values| - 1] == v then 1 else 0
  }

  /** Twice the average of the positions Below + 1 .. Below + Equal that the ties of v share. */
  function DoubledRank(values: seq<real>, v: real): nat {
    2 * Below(values, v) + Equal(values, v) + 1
  }

  function DoubledRanks(values: seq<real>): seq<nat> {
    seq(|values|, i requires 0 <= i < |values| => DoubledRank(values, values[i]))
  }

  // ---- the ranking loop ----

  function Positions(n: nat): seq<nat> {
    seq(n, i => i)
  }

  function At(values: seq<real>, p: nat): real {
    if p < |values| then values[p] else 0.0
  }

  /** sorted(enumerate(values)) by value, given by the original positions. */
  function Ordered(values: seq<real>): seq<nat> {
    Sort(Positions(|values|), (a, b) => At(values, a) <= At(values, b))
  }

  function ValuesAt(values: seq<real>, order: seq<nat>): seq<real> {
    seq(|order|, i requires 0 <= i < |order| => At(values, order[i]))
  }

  lemma {:induction false} CountsSplit(a: seq<real>, b: seq<real>, v: real)
    ensures Below(a + b, v) == Below(a, v) + Below(b, v)
    ensures Equal(a + b, v) == Equal(a, v) + Equal(b, v)
  {
    if b == [] {
      assert a + b == a;
    } else {
      CountsSplit(a, b[..|b| - 1], v);
      assert (a + b)[..|a + b| - 1] == a + b[..|b| - 1];
    }
  }

  lemma {:induction false} CountsPermute(a: seq<nat>, b: seq<nat>, values: seq<real>, v: real)
    requires multiset(a) == multiset(b)
    ensures Below(ValuesAt(values, a), v) == Below(ValuesAt(values, b), v)
    ensures Equal(ValuesAt(values, a), v) == Equal(ValuesAt(values, b), v)
  {
    hide Below, Equal, At;
    assert |multiset(a)| == |a| && |multiset(b)| == |b|;
    if a != [] {
      assert a[0] in multiset(b);
      var i :| 0 <= i < |b| && b[i] == a[0];
      RemoveOne(a, b, i);
      var one, va := ValuesAt(values, [a[0]]), ValuesAt(values, a[1..]);
      var l, r := ValuesAt(values, b[..i]), ValuesAt(values, b[i + 1..]);
      CountsPermute(a[1..], b[..i] + b[i + 1..], values, v);
      assert ValuesAt(values, a) == one + va;
      assert ValuesAt(values, b) == l + (one + r);
      assert ValuesAt(values, b[..i] + b[i + 1..]) == l + r;
      CountsSplit(one, va, v);
      CountsSplit(l, one + r, v);
      CountsSplit(one, r, v);
      CountsSplit(l, r, v);
    } else {
      assert b == [];
    }
  }

  lemma {:induction false} CountsOfBand(s: seq<real>, v: real, lo: nat, hi: nat)
    requires lo <= hi <= |s|
    requires forall i :: 0 <= i < |s| ==> (i < lo ==> s[i] < v) && (lo <= i < hi ==> s[i] == v) && (hi <= i ==> s[i] > v)
    ensures Below(s, v) == lo && Equal(s, v) == hi - lo
  {
    if s != [] {
      var n := |s| - 1;
      CountsOfBand(s[..n], v, if lo <= n then lo else n, if hi <= n then hi else n);
    }
  }

  /** The sorted positions: each once, by rising value; counting over them is counting over the values. */
  lemma OrderedFacts(values: seq<real>)
    ensures var order := Ordered(values);
      && |order| == |values| && Distinct(order)
      && (forall p :: p in order <==> 0 <= p < |values|)
      && (forall i, j :: 0 <= i < j < |order| ==> At(values, order[i]) <= At(values, order[j]))
      && (forall v :: Below(ValuesAt(values, order), v) == Below(values, v) && Equal(ValuesAt(values, order), v) == Equal(values, v))
  {
    hide Below, Equal;
    var positions, order := Positions(|values|), Ordered(values);
    var le := (a, b) => At(values, a) <= At(values, b);
    SortPermutes(positions, le);
    SortSorts(positions, le);
    SortMembers(positions, le);
    DistinctPermutes(positions, order);
    forall p ensures p in order <==> 0 <= p < |values| {
      if 0 <= p < |values| {
        assert positions[p] == p;
      }
    }
    forall i, j | 0 <= i < j < |order| ensures At(values, order[i]) <= At(values, order[j]) {
      assert le(order[i], order[j]);
    }
    assert ValuesAt(values, positions) == values;
    forall v ensures Below(ValuesAt(values, order), v) == Below(values, v) && Equal(ValuesAt(values, order), v) == Equal(values, v) {
      CountsPermute(positions, order, values, v);
    }
  }

  /** A maximal run of equal values between two positions of the sorted order has the averaged rank. */
  lemma BandRank(values: seq<real>, index: nat, end: nat)
    requires var order := Ordered(values);
      && index < end <= |order| && |order| == |values|
      && (forall k :: index <= k < end ==> At(values, order[k]) == At(values, order[index]))
      && (index > 0 ==> At(values, order[index - 1]) < At(values, order[index]))
      && (end < |order| ==> At(values, order[end]) != At(values, order[index]))
    ensures DoubledRank(values, At(values, Ordered(values)[index])) == index + 1 + end
  {
    hide Below, Equal, At;
    OrderedFacts(values);
    var order := Ordered(values);
    var s, v := ValuesAt(values, order), At(values, order[index]);
    CountsOfBand(s, v, index, end);
  }

  /** Gives every position of one run the same rank. */
  method FillBand(ranks: array<real>, ordered: seq<nat>, index: nat, end: nat, average: real)
    requires index <= end <= |ordered| && Distinct(ordered)
    requires forall k :: 0 <= k < |ordered| ==> ordered[k] < ranks.Length
    modifies ranks
    ensures forall k :: 0 <= k < |ordered| ==>
      ranks[ordered[k]] == if index <= k < end then average else old(ranks[ordered[k]])
  {
    for k := index to end
      invariant forall j :: 0 <= j < |ordered| ==>
        ranks[ordered[j]] == if index <= j < k then average else old(ranks[ordered[j]])
    {
      ranks[ordered[k]] := average;
    }
  }

  method AverageRanks(values: seq<real>) returns (result: seq<real>)
    ensures |result| == |values|
    ensures forall i :: 0 <= i < |values| ==> result[i] == DoubledRank(values, values[i]) as real / 2.0
  {
    hide Below, Equal, DoubledRank, Ordered;
    var ordered := Ordered(values);
    OrderedFacts(values);
    assert forall k :: 0 <= k < |ordered| ==> ordered[k] in ordered;
    var ranks := new real[|values|](_ => 0.0);
    var index := 0;
    while index < |ordered|
      invariant 0 <= index <= |ordered|
      invariant 0 < index < |ordered| ==> At(values, ordered[index - 1]) < At(values, ordered[index])
      invariant forall k :: 0 <= k < index ==> ranks[ordered[k]] == DoubledRank(values, At(values, ordered[k])) as real / 2.0
    {
      var end := index + 1;
      while end < |ordered| && At(values, ordered[end]) == At(values, ordered[index])
        invariant index < end <= |ordered|
        invariant forall k :: index <= k < end ==> At(values, ordered[k]) == At(values, ordered[index])
      {
        end := end + 1;
      }
      var average := ((index + 1) + end) as real / 2.0;
      BandRank(values, index, end);
      FillBand(ranks, ordered, index, end, average);
      index := end;
    }
    forall i | 0 <= i < |values| ensures ranks[i] == DoubledRank(values, values[i]) as real / 2.0 {
      assert i in ordered;
      var k :| 0 <= k < |ordered| && ordered[k] == i;
    }
    result := ranks[..];
  }

  // ---- the ranks of n values add up to n(n+1)/2, ties or not ----

  /** Sum over the elements of s of twice their Below plus their Equal within pool. */
  ghost function PairSum(s: seq<real>, pool: seq<real>): nat {
    if s == [] then 0
    else PairSum(s[..|s| - 1], pool) + 2 * Below(pool, s[|s| - 1]) + Equal(pool, s[|s| - 1])
  }

  /** Adding one value to the pool raises the sum by what lies above it, and by its ties. */
  lemma {:induction false} PoolGrows(s: seq<real>, pool: seq<real>, x: real)
    ensures PairSum(s, pool + [x]) == PairSum(s, pool) + 2 * (|s| - Below(s, x) - Equal(s, x)) + Equal(s, x)
  {
    if s != [] {
      var init, last := s[..|s| - 1], s[|s| - 1];
      PoolGrows(init, pool, x);
      assert (pool + [x])[..|pool|] == pool;
    }
  }

  lemma {:induction false} PairsAreSquare(s: seq<real>)
    ensures PairSum(s, s) == |s| * |s|
  {
    if s != [] {
      var init, x := s[..|s| - 1], s[|s| - 1];
      PairsAreSquare(init);
      assert s == init + [x];
      PoolGrows(init, init, x);
      CountsSplit(init, [x], x);
      CountsOfBand([x], x, 0, 1);
      assert |s| * |s| == |init| * |init| + 2 * |init| + 1;
    }
  }

  lemma {:induction false} RanksArePairs(values: seq<real>, n: nat)
    requires n <= |values|
    ensures SumAll(DoubledRanks(values)[..n]) == PairSum(values[..n], values) + n
  {
    hide Below, Equal;
    var r := DoubledRanks(values);
    if n > 0 {
      RanksArePairs(values, n - 1);
      assert r[..n][..n - 1] == r[..n - 1] && values[..n][..n - 1] == values[..n - 1];
    }
  }

  /** Averaging keeps the rank total: the doubled ranks of n values add up to n(n+1). */
  lemma RankTotal(values: seq<real>)
    ensures SumAll(DoubledRanks(values)) == |values| * (|values| + 1)
  {
    RanksArePairs(values, |values|);
    PairsAreSquare(values);
    assert values[..|values|] == values && DoubledRanks(values)[..|values|] == DoubledRanks(values);
    assert |values| * (|values| + 1) == |values| * |values| + |values|;
  }
}
