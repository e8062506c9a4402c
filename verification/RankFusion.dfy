/** Reciprocal rank fusion (core/memory/rrf.py). */
module RankFusion {
  import opened Basics
  import opened Sorting
  import opened Retrieval

  const OFFSET := 60

  /** What one ranking gives a document: 1 / (60 + rank) for each place it holds, ranks counted from one. */
  function Gain(ranking: seq<string>, id: string): real {
    if ranking == [] then 0.0
    else
      Gain(ranking[..|ranking| - 1], id) +
      if ranking[|ranking| - 1] == id then 1.0 / (OFFSET + |ranking|) as real else 0.0
  }

  function FusedScore(rankings: seq<seq<string>>, id: string): real {
    if rankings == [] then 0.0
    else FusedScore(rankings[..|rankings| - 1], id) + Gain(rankings[|rankings| - 1], id)
  }

  /** New ids join in the order of their first appearance. */
  function Join(seen: seq<string>, ranking: seq<string>): seq<string> {
    if ranking == [] then seen
    else
      var before, id := Join(seen, ranking[..|ranking| - 1]), ranking[|ranking| - 1];
      if id in before then before else before + [id]
  }

  function Seen(rankings: seq<seq<string>>): seq<string> {
    if rankings == [] then [] else Join(Seen(rankings[..|rankings| - 1]), rankings[|rankings| - 1])
  }

  function Items(rankings: seq<seq<string>>): seq<Hit> {
    seq(|Seen(rankings)|, i requires 0 <= i < |Seen(rankings)| => Hit(FusedScore(rankings, Seen(rankings)[i]), Seen(rankings)[i]))
  }

  function Fuse(rankings: seq<seq<string>>, k: int): seq<string> {
    Take(HitIds(Sort(Items(rankings), HitLe)), k)
  }

  ghost predicate Scored(scores: map<string, real>, order: seq<string>, done: seq<seq<string>>, ranking: seq<string>) {
    && order == Join(Seen(done), ranking)
    && (forall id :: id in scores <==> id in order)
    && (forall id :: id in scores ==> scores[id] == FusedScore(done, id) + Gain(ranking, id))
    && (forall id :: id !in scores ==> FusedScore(done, id) + Gain(ranking, id) == 0.0)
  }

  lemma NothingFused(rankings: seq<seq<string>>, k: int)
    requires k <= 0
    ensures Fuse(rankings, k) == []
  {
  }

  lemma FuseIs(rankings: seq<seq<string>>, k: int)
    ensures Fuse(rankings, k) == Take(HitIds(Sort(Items(rankings), HitLe)), k)
  {
  }

  lemma NothingScored()
    ensures Scored(map[], [], [], [])
  {
  }

  lemma ScoreOne(scores: map<string, real>, order: seq<string>, done: seq<seq<string>>, ranking: seq<string>, m: nat)
    requires m < |ranking| && Scored(scores, order, done, ranking[..m])
    ensures var id, gain := ranking[m], 1.0 / (OFFSET + m + 1) as real;
      && (id in scores ==> Scored(scores[id := scores[id] + gain], order, done, ranking[..m + 1]))
      && (id !in scores ==> Scored(scores[id := gain], order + [id], done, ranking[..m + 1]))
  {
    hide FusedScore, Seen;
    assert ranking[..m + 1][..m] == ranking[..m];
  }

  lemma RankingDone(scores: map<string, real>, order: seq<string>, rankings: seq<seq<string>>, n: nat)
    requires n < |rankings| && Scored(scores, order, rankings[..n], rankings[n])
    ensures Scored(scores, order, rankings[..n + 1], [])
  {
    assert rankings[..n + 1][..n] == rankings[..n];
  }

  lemma ScoresAreItems(scores: map<string, real>, order: seq<string>, rankings: seq<seq<string>>)
    requires Scored(scores, order, rankings, [])
    ensures forall i :: 0 <= i < |order| ==> order[i] in scores
    ensures seq(|order|, i requires 0 <= i < |order| => Hit(scores[order[i]], order[i])) == Items(rankings)
  {
    hide FusedScore, Seen;
  }

  method RrfFuse(rankings: seq<seq<string>>, k: int) returns (fused: seq<string>)
    ensures fused == Fuse(rankings, k)
  {
    hide Scored, Fuse, Items, Take, HitIds, Sort, HitLe;
    if k <= 0 {
      NothingFused(rankings, k);
      return [];
    }
    var scores: map<string, real> := map[];
    var order: seq<string> := [];
    NothingScored();
    for n := 0 to |rankings|
      invariant Scored(scores, order, rankings[..n], [])
    {
      var ranking := rankings[n];
      assert ranking[..0] == [];
      for m := 0 to |ranking|
        invariant Scored(scores, order, rankings[..n], ranking[..m])
      {
        var id := ranking[m];
        ScoreOne(scores, order, rankings[..n], ranking, m);
        if id in scores {
          scores := scores[id := scores[id] + 1.0 / (OFFSET + m + 1) as real];
        } else {
          scores, order := scores[id := 1.0 / (OFFSET + m + 1) as real], order + [id];
        }
      }
      assert ranking[..|ranking|] == ranking;
      RankingDone(scores, order, rankings, n);
    }
    assert rankings[..|rankings|] == rankings;
    ScoresAreItems(scores, order, rankings);
    fused := Take(HitIds(Sort(seq(|order|, i requires 0 <= i < |order| => Hit(scores[order[i]], order[i])), HitLe)), k);
    FuseIs(rankings, k);
  }

  // ---- what fusion respects ----

  lemma {:induction false} JoinFacts(seen: seq<string>, ranking: seq<string>)
    requires Distinct(seen)
    ensures Distinct(Join(seen, ranking)) && forall id :: id in Join(seen, ranking) <==> id in seen || id in ranking
  {
    if ranking != [] {
      JoinFacts(seen, ranking[..|ranking| - 1]);
      assert ranking == ranking[..|ranking| - 1] + [ranking[|ranking| - 1]];
    }
  }

  ghost predicate InSome(rankings: seq<seq<string>>, id: string) {
    exists n :: 0 <= n < |rankings| && id in rankings[n]
  }

  lemma NoneDistinct()
    ensures Distinct<string>([])
  {
  }

  lemma {:induction false} SeenFacts(rankings: seq<seq<string>>)
    ensures Distinct(Seen(rankings)) && forall id :: id in Seen(rankings) <==> InSome(rankings, id)
  {
    hide Join, Distinct;
    if rankings == [] {
      assert Distinct(Seen(rankings)) by { NoneDistinct(); }
    } else {
      var init, last := rankings[..|rankings| - 1], rankings[|rankings| - 1];
      SeenFacts(init);
      JoinFacts(Seen(init), last);
      forall id ensures InSome(rankings, id) <==> InSome(init, id) || id in last {
        if n :| 0 <= n < |init| && id in init[n] {
          assert id in rankings[n];
        }
      }
    }
  }

  lemma {:induction false} GainAbsent(ranking: seq<string>, id: string)
    requires id !in ranking
    ensures Gain(ranking, id) == 0.0
  {
    if ranking != [] {
      GainAbsent(ranking[..|ranking| - 1], id);
    }
  }

  /** A document ranked once, at position p, gains 1 / (61 + p). */
  lemma {:induction false} GainAt(ranking: seq<string>, p: nat)
    requires Distinct(ranking) && p < |ranking|
    ensures Gain(ranking, ranking[p]) == 1.0 / (61 + p) as real
  {
    var init := ranking[..|ranking| - 1];
    if p == |init| {
      GainAbsent(init, ranking[p]);
    } else {
      GainAt(init, p);
    }
  }

  lemma LaterGainsLess(p: nat, q: nat)
    requires p < q
    ensures 1.0 / (OFFSET + p + 1) as real > 1.0 / (OFFSET + q + 1) as real > 0.0
  {
    var x, y := (OFFSET + p + 1) as real, (OFFSET + q + 1) as real;
    assert 1.0 / x - 1.0 / y == (y - x) / (x * y);
  }

  /** Wherever b is ranked, a is ranked before it. */
  ghost predicate Ahead(rankings: seq<seq<string>>, a: string, b: string) {
    forall n, q :: 0 <= n < |rankings| && 0 <= q < |rankings[n]| && rankings[n][q] == b ==>
      exists p :: 0 <= p < q && rankings[n][p] == a
  }

  ghost predicate NoRepeats(rankings: seq<seq<string>>) {
    forall n :: 0 <= n < |rankings| ==> Distinct(rankings[n])
  }

  lemma {:induction false} GainPositive(ranking: seq<string>, id: string)
    ensures Gain(ranking, id) >= 0.0
  {
    if ranking != [] {
      GainPositive(ranking[..|ranking| - 1], id);
    }
  }

  lemma GainOfAhead(ranking: seq<string>, a: string, b: string)
    requires Distinct(ranking)
    requires forall q :: 0 <= q < |ranking| && ranking[q] == b ==> exists p :: 0 <= p < q && ranking[p] == a
    ensures Gain(ranking, a) >= Gain(ranking, b) && (b in ranking ==> Gain(ranking, a) > Gain(ranking, b))
  {
    hide Gain;
    if b in ranking {
      var q :| 0 <= q < |ranking| && ranking[q] == b;
      var p :| 0 <= p < q && ranking[p] == a;
      GainAt(ranking, p);
      GainAt(ranking, q);
      LaterGainsLess(p, q);
    } else {
      GainAbsent(ranking, b);
      GainPositive(ranking, a);
    }
  }

  lemma {:induction false} ScoreOfAhead(rankings: seq<seq<string>>, a: string, b: string)
    requires NoRepeats(rankings) && Ahead(rankings, a, b)
    ensures FusedScore(rankings, a) >= FusedScore(rankings, b)
    ensures InSome(rankings, b) ==> FusedScore(rankings, a) > FusedScore(rankings, b)
  {
    hide Gain;
    if rankings != [] {
      var init, last := rankings[..|rankings| - 1], rankings[|rankings| - 1];
      ScoreOfAhead(init, a, b);
      GainOfAhead(last, a, b);
      if InSome(rankings, b) && b !in last {
        var n :| 0 <= n < |rankings| && b in rankings[n];
        assert b in init[n];
      }
    }
  }

  lemma ItemsAre(rankings: seq<seq<string>>)
    ensures forall h :: h in Items(rankings) <==> h.id in Seen(rankings) && h.score == FusedScore(rankings, h.id)
  {
    hide Seen, FusedScore;
    forall h: Hit | h.id in Seen(rankings) && h.score == FusedScore(rankings, h.id) ensures h in Items(rankings) {
      var i :| 0 <= i < |Seen(rankings)| && Seen(rankings)[i] == h.id;
      assert Items(rankings)[i] == h;
    }
  }

  lemma SomewhereAhead(rankings: seq<seq<string>>, a: string, b: string)
    requires Ahead(rankings, a, b) && InSome(rankings, b)
    ensures InSome(rankings, a)
  {
    var n :| 0 <= n < |rankings| && b in rankings[n];
    var q :| 0 <= q < |rankings[n]| && rankings[n][q] == b;
    var p :| 0 <= p < q && rankings[n][p] == a;
    assert a in rankings[n];
  }

  lemma HigherComesFirst(sorted: seq<Hit>, i: nat, j: nat)
    requires SortedBy(sorted, HitLe) && i < |sorted| && j < |sorted| && sorted[i].score > sorted[j].score
    ensures i < j
  {
    hide StringLe;
  }

  /** Fusion never overrules a unanimous preference: a document that is ahead of another in every ranking that has
      the other comes before it, whenever the other is returned at all. */
  lemma FusionIsUnanimous(rankings: seq<seq<string>>, a: string, b: string, k: nat, j: nat)
    requires NoRepeats(rankings) && Ahead(rankings, a, b)
    requires j < |Fuse(rankings, k)| && Fuse(rankings, k)[j] == b
    ensures exists i :: 0 <= i < j && Fuse(rankings, k)[i] == a
  {
    hide Sort, HitLe, Seen, FusedScore, Ahead, NoRepeats, InSome, Distinct, Fuse, Take, HitIds;
    var hits := Items(rankings);
    var sorted := Sort(hits, HitLe);
    FuseIs(rankings, k);
    TakenIds(sorted, k);
    SortMembers(hits, HitLe);
    HitOrder();
    SortSorts(hits, HitLe);
    SeenFacts(rankings);
    ItemsAre(rankings);
    assert sorted[j] in hits && sorted[j].id == b;
    SomewhereAhead(rankings, a, b);
    ScoreOfAhead(rankings, a, b);
    var better := Hit(FusedScore(rankings, a), a);
    assert better in sorted;
    var i :| 0 <= i < |sorted| && sorted[i] == better;
    HigherComesFirst(sorted, i, j);
    assert Fuse(rankings, k)[i] == a;
  }

  // ---- one long list and one of a single document ----

  lemma ScoreOfTwo(x: seq<string>, y: seq<string>, id: string)
    ensures FusedScore([x, y], id) == Gain(x, id) + Gain(y, id)
  {
    assert [x, y][..1] == [x];
    assert FusedScore([x], id) == FusedScore([], id) + Gain(x, id) by { assert [x][..0] == []; }
  }

  /** A hit that beats every other is returned first. */
  lemma TopOfFuse(rankings: seq<seq<string>>, id: string, k: nat)
    requires k > 0 && InSome(rankings, id)
    requires forall other :: InSome(rankings, other) ==> HitLe(Hit(FusedScore(rankings, id), id), Hit(FusedScore(rankings, other), other))
    ensures Fuse(rankings, k) != [] && Fuse(rankings, k)[0] == id
  {
    hide Sort, HitLe, Seen, FusedScore, InSome, Fuse, Take, HitIds, Distinct;
    var hits := Items(rankings);
    var sorted := Sort(hits, HitLe);
    FuseIs(rankings, k);
    TakenIds(sorted, k);
    SortMembers(hits, HitLe);
    HitOrder();
    SortSorts(hits, HitLe);
    SeenFacts(rankings);
    ItemsAre(rankings);
    var top := Hit(FusedScore(rankings, id), id);
    assert top in sorted;
    assert sorted[0] in hits;
    var i :| 0 <= i < |sorted| && sorted[i] == top;
    assert HitLe(sorted[0], top) by { assert HitLe(top, top); }
    assert HitLe(top, sorted[0]);
  }

  /** Anyone who is not first in the one list and absent from the other gains less than the first place gives. */
  lemma LesserGain(x: seq<string>, y: seq<string>, id: string)
    requires Distinct(x) && id in x && x[0] != id && id !in y
    ensures FusedScore([x, y], id) < 1.0 / (OFFSET + 1) as real
  {
    hide FusedScore, Gain;
    var p :| 0 <= p < |x| && x[p] == id;
    GainAt(x, p);
    GainAbsent(y, id);
    ScoreOfTwo(x, y, id);
    LaterGainsLess(0, p);
  }

  lemma SingleDistinct(id: string)
    ensures Distinct([id])
  {
  }

  /** A document that only the second list has ties with the first of the first list, and the smaller id wins. */
  lemma FirstOnTop(x: seq<string>, id: string, k: nat)
    requires x != [] && Distinct(x) && id !in x && StringLe(x[0], id) && k > 0
    ensures var r := Fuse([x, [id]], k); r != [] && r[0] == x[0]
  {
    hide Fuse, FusedScore, Gain, Distinct, StringLe;
    var first := x[0];
    GainAt(x, 0);
    SingleDistinct(id);
    GainAt([id], 0);
    GainAbsent([id], first);
    GainAbsent(x, id);
    ScoreOfTwo(x, [id], first);
    ScoreOfTwo(x, [id], id);
    assert first in [x, [id]][0];
    forall other | InSome([x, [id]], other)
      ensures HitLe(Hit(FusedScore([x, [id]], first), first), Hit(FusedScore([x, [id]], other), other))
    {
      StringLeTotal(first, first);
      if other != first && other != id {
        assert other in x;
        LesserGain(x, [id], other);
      }
    }
    TopOfFuse([x, [id]], first, k);
  }

  lemma FirstIsNotLast(x: seq<string>)
    requires |x| >= 2 && Distinct(x)
    ensures x[0] != x[|x| - 1]
  {
  }

  /** If the first list has it too, however far down, it comes first. */
  lemma LastOnTop(x: seq<string>, k: nat)
    requires |x| >= 2 && Distinct(x) && k > 0
    ensures var id := x[|x| - 1]; var r := Fuse([x, [id]], k); r != [] && r[0] == id
  {
    hide Fuse, FusedScore, Gain, Distinct, StringLe;
    var id, first := x[|x| - 1], x[0];
    FirstIsNotLast(x);
    SingleDistinct(id);
    GainAt(x, 0);
    GainAt(x, |x| - 1);
    GainAt([id], 0);
    GainAbsent([id], first);
    ScoreOfTwo(x, [id], first);
    ScoreOfTwo(x, [id], id);
    assert id in [x, [id]][1];
    forall other | InSome([x, [id]], other)
      ensures HitLe(Hit(FusedScore([x, [id]], id), id), Hit(FusedScore([x, [id]], other), other))
    {
      StringLeTotal(id, id);
      if other != first && other != id {
        assert other in x;
        LesserGain(x, [id], other);
      }
    }
    TopOfFuse([x, [id]], id, k);
  }
}
