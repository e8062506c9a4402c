/** Which records a link pass connects, read off the records and the edges (core/evolve/memory_ops.py). */
module SimilarLinks {
  import opened Basics
  import opened Sorting
  import opened MemoryStore
  import opened Timeline
  import opened TimelineRuns

  // ---- similar records ----

  /** The measure looks at what records say, not at how they are linked. */
  ghost predicate IgnoresEdges(similarity: Score) {
    forall a: Rec, b: Rec, l, m, r, s :: similarity(a.(links := l, relations := r), b.(links := m, relations := s)) == similarity(a, b)
  }

  lemma SameTags(fold: string -> string, a: Rec, l: seq<string>, r: seq<Relation>)
    ensures TagSet(fold, a.(links := l, relations := r)) == TagSet(fold, a)
    ensures AssetSet(a.(links := l, relations := r)) == AssetSet(a)
  {
  }

  lemma FamilyIgnoresEdges(fold: string -> string)
    ensures IgnoresEdges(FamilySimilarity(fold))
  {
    hide Rounded, Jaccard;
    forall a: Rec, b: Rec, l, m, r, s
      ensures FamilySimilarity(fold)(a.(links := l, relations := r), b.(links := m, relations := s)) == FamilySimilarity(fold)(a, b)
    {
      SameTags(fold, a, l, r);
      SameTags(fold, b, m, s);
    }
  }

  /** Another live record that is similar enough. */
  ghost predicate IsCandidate(view: View, i: nat, similarity: Score, threshold: real, j: nat)
    requires i < |view|
  {
    j < |view| && !view[j].quarantined && view[j].ready && view[j].id != view[i].id && similarity(view[i], view[j]) >= threshold
  }

  /** j goes before m: it is more similar, or as similar and was inserted earlier. */
  ghost predicate GoesBefore(view: View, i: nat, similarity: Score, j: nat, m: nat)
    requires i < |view| && j < |view| && m < |view|
  {
    var x, y := similarity(view[i], view[j]), similarity(view[i], view[m]);
    x > y || (x == y && j < m)
  }

  ghost predicate Ascends(s: seq<nat>) {
    forall a, b :: 0 <= a < b < |s| ==> s[a] < s[b]
  }

  lemma {:induction false} CandidatesAre(view: View, i: nat, similarity: Score, threshold: real, n: nat)
    requires i < |view| && n <= |view|
    ensures forall j: nat :: j in AlikeTo(view, i, similarity, threshold, n) <==> j < n && IsCandidate(view, i, similarity, threshold, j)
    ensures Ascends(AlikeTo(view, i, similarity, threshold, n))
  {
    if n > 0 {
      CandidatesAre(view, i, similarity, threshold, n - 1);
      var init, all := AlikeTo(view, i, similarity, threshold, n - 1), AlikeTo(view, i, similarity, threshold, n);
      assert all == init + if IsCandidate(view, i, similarity, threshold, n - 1) then [n - 1] else [];
      forall a, b | 0 <= a < b < |all| ensures all[a] < all[b] {
        assert a < |init| && all[a] == init[a];
        assert all[a] in init;
      }
    }
  }

  ghost predicate PairInOrder(view: View, i: nat, similarity: Score, s: seq<nat>, a: int, b: int)
    requires i < |view|
  {
    0 <= a < b < |s| ==> s[a] < |view| && s[b] < |view| && GoesBefore(view, i, similarity, s[a], s[b])
  }

  /** The order in which candidates are taken. */
  ghost predicate InOrder(view: View, i: nat, similarity: Score, s: seq<nat>)
    requires i < |view|
  {
    forall a, b :: PairInOrder(view, i, similarity, s, a, b)
  }

  function ByScore(view: View, i: nat, similarity: Score): (nat, nat) -> bool
    requires i < |view|
  {
    var score := (j: nat) => if j < |view| then similarity(view[i], view[j]) else 0.0;
    (a: nat, b: nat) => score(a) >= score(b)
  }

  lemma ByScoreIs(view: View, i: nat, similarity: Score, a: nat, b: nat)
    requires i < |view| && a < |view| && b < |view|
    ensures ByScore(view, i, similarity)(a, b) <==> similarity(view[i], view[a]) >= similarity(view[i], view[b])
    ensures ByScore(view, i, similarity)(a, b) && (ByScore(view, i, similarity)(b, a) ==> a < b) ==> GoesBefore(view, i, similarity, a, b)
  {
  }

  lemma ByScoreTotal(view: View, i: nat, similarity: Score)
    requires i < |view|
    ensures TotalPreorder(ByScore(view, i, similarity))
  {
  }

  lemma SortedAre(view: View, i: nat, similarity: Score, all: seq<nat>) returns (sorted: seq<nat>)
    requires i < |view| && Ascends(all) && forall j: nat :: j in all ==> j < |view|
    ensures sorted == Sort(all, ByScore(view, i, similarity))
    ensures Distinct(sorted) && |sorted| == |all| && (forall j: nat :: j in sorted <==> j in all)
    ensures InOrder(view, i, similarity, sorted)
  {
    hide Sort, ByScore, GoesBefore;
    var le := ByScore(view, i, similarity);
    ByScoreTotal(view, i, similarity);
    sorted := Sort(all, le);
    SortPermutes(all, le);
    SortSorts(all, le);
    SortAscends(all, le);
    SortMembers(all, le);
    DistinctPermutes(all, sorted);
    forall a, b ensures PairInOrder(view, i, similarity, sorted, a, b) {
      if 0 <= a < b < |sorted| {
        assert sorted[a] in sorted && sorted[b] in sorted;
        assert le(sorted[a], sorted[b]) && (le(sorted[b], sorted[a]) ==> sorted[a] < sorted[b]);
        ByScoreIs(view, i, similarity, sorted[a], sorted[b]);
      }
    }
  }

  lemma CandidatesExist(view: View, i: nat, similarity: Score, threshold: real)
    requires i < |view|
    ensures forall j: nat :: IsCandidate(view, i, similarity, threshold, j) ==> j < |view|
  {
  }

  lemma SortedCandidates(view: View, i: nat, similarity: Score, threshold: real) returns (sorted: seq<nat>)
    requires i < |view|
    ensures forall k: nat :: Best(view, i, similarity, threshold, k) == Take(sorted, k)
    ensures Distinct(sorted) && |sorted| == |AlikeTo(view, i, similarity, threshold, |view|)|
    ensures forall j: nat :: j in sorted <==> IsCandidate(view, i, similarity, threshold, j)
    ensures InOrder(view, i, similarity, sorted)
  {
    hide AlikeTo, IsCandidate, Sort, GoesBefore, InOrder, Ascends, Distinct;
    var all := AlikeTo(view, i, similarity, threshold, |view|);
    CandidatesAre(view, i, similarity, threshold, |view|);
    CandidatesExist(view, i, similarity, threshold);
    sorted := SortedAre(view, i, similarity, all);
  }

  /** The chosen records: candidates, each once, as many as asked or there are, and the first in the order. */
  lemma BestAre(view: View, i: nat, similarity: Score, threshold: real, k: nat)
    requires i < |view|
    ensures var best := Best(view, i, similarity, threshold, k);
      && Distinct(best) && |best| == Min(k, |AlikeTo(view, i, similarity, threshold, |view|)|)
      && (forall j: nat :: j in best ==> IsCandidate(view, i, similarity, threshold, j))
      && forall j: nat, m: nat :: j in best && IsCandidate(view, i, similarity, threshold, m) && m !in best ==>
           GoesBefore(view, i, similarity, j, m)
  {
    hide Best, AlikeTo, IsCandidate, GoesBefore;
    var sorted := SortedCandidates(view, i, similarity, threshold);
    var best := Best(view, i, similarity, threshold, k);
    forall j: nat, m: nat | j in best && IsCandidate(view, i, similarity, threshold, m) && m !in best
      ensures j < |view| && m < |view| && GoesBefore(view, i, similarity, j, m)
    {
      var a :| 0 <= a < |best| && best[a] == j;
      var b :| 0 <= b < |sorted| && sorted[b] == m;
      assert b >= |best| && sorted[a] == j;
      assert PairInOrder(view, i, similarity, sorted, a, b);
    }
  }

  /** Some listed record has this id. */
  ghost predicate Lists(view: View, best: seq<nat>, t: string) {
    exists p :: 0 <= p < |best| && best[p] < |view| && view[best[p]].id == t
  }

  lemma ListsFirst(view: View, next: View, best: seq<nat>, t: string)
    requires best != [] && best[0] < |view| && SameButEdges(view, next)
    ensures Lists(view, best, t) <==> view[best[0]].id == t || Lists(next, best[1..], t)
  {
    if Lists(view, best, t) {
      var p :| 0 <= p < |best| && best[p] < |view| && view[best[p]].id == t;
      assert p > 0 ==> best[1..][p - 1] == best[p];
    }
    if Lists(next, best[1..], t) {
      var p :| 0 <= p < |best[1..]| && best[1..][p] < |next| && next[best[1..][p]].id == t;
      assert best[p + 1] == best[1..][p];
    }
  }

  lemma SameTransitive(a: View, b: View, c: View)
    ensures SameButEdges(a, a) && (SameButEdges(a, b) && SameButEdges(b, c) ==> SameButEdges(a, c))
  {
  }

  lemma NoneListed(view: View, t: string)
    ensures !Lists(view, [], t)
  {
  }

  lemma SimilarEdge(view: View, i: nat, j: nat, score: real, t: string)
    requires i < |view| && j < |view| && i != j
    ensures var next := LinkSimilar(view, i, j, score);
      SameButEdges(view, next) && (HasRelation(next[i], t, SimilarTo) <==> HasRelation(view[i], t, SimilarTo) || view[j].id == t)
  {
    hide HasRelation, Connect;
    ConnectAdds(view, i, j, SimilarTo, SimilarTo, score, i, t, SimilarTo);
    var linked := Connect(view, i, j, SimilarTo, SimilarTo, score);
    ConnectAdds(linked, i, j, Precedes, Follows, 1.0, i, t, SimilarTo);
    ConnectAdds(linked, j, i, Precedes, Follows, 1.0, i, t, SimilarTo);
  }

  /** A pass over chosen records adds a similarity edge to each of them, and to no other. */
  lemma {:induction false} EdgesOfAll(view: View, i: nat, best: seq<nat>, scores: View, similarity: Score, t: string)
    requires i < |view| && |scores| == |view| && InRange(best, |view|)
    requires forall p :: 0 <= p < |best| ==> best[p] != i
    ensures var next := LinkAll(view, i, best, scores, similarity);
      |next| == |view| && SameButEdges(view, next)
      && (HasRelation(next[i], t, SimilarTo) <==> HasRelation(view[i], t, SimilarTo) || Lists(view, best, t))
    decreases |best|
  {
    hide HasRelation, LinkSimilar, SameButEdges, Lists;
    SameLength(view, i, best, scores, similarity);
    if best == [] {
      NoneListed(view, t);
      SameTransitive(view, view, view);
    } else {
      var score := similarity(scores[i], scores[best[0]]);
      var next := LinkSimilar(view, i, best[0], score);
      LinkSimilarLength(view, i, best[0], score);
      SimilarEdge(view, i, best[0], score, t);
      ListsFirst(view, next, best, t);
      EdgesOfAll(next, i, best[1..], scores, similarity, t);
      SameTransitive(view, next, LinkAll(view, i, best, scores, similarity));
    }
  }

  lemma TemporalEdge(view: View, i: nat, t: string)
    requires i < |view|
    ensures var next := LinkTemporal(view, i);
      SameButEdges(view, next) && (HasRelation(next[i], t, SimilarTo) <==> HasRelation(view[i], t, SimilarTo))
  {
    hide HasRelation, Connect;
    var older, newer := LatestOlder(view, i, |view|), EarliestNewer(view, i, |view|);
    var first := view;
    if older >= 0 {
      ConnectAdds(view, older, i, Precedes, Follows, 1.0, i, t, SimilarTo);
      first := Connect(view, older, i, Precedes, Follows, 1.0);
    }
    if newer >= 0 {
      ConnectAdds(first, i, newer, Precedes, Follows, 1.0, i, t, SimilarTo);
    }
  }

  /** The other records a similarity edge of record i leads to. */
  ghost function LinkedTo(view: View, i: nat): set<nat>
    requires i < |view|
  {
    set j: nat | j < |view| && HasRelation(view[i], view[j].id, SimilarTo)
  }

  ghost function CandidatesOf(view: View, i: nat, similarity: Score, threshold: real): set<nat>
    requires i < |view|
  {
    set j: nat | j < |view| && IsCandidate(view, i, similarity, threshold, j)
  }

  lemma {:induction false} DistinctSet(s: seq<nat>)
    requires Distinct(s)
    ensures |set j: nat | j in s| == |s|
  {
    if s != [] {
      var first, rest := s[0], s[1..];
      var a, b := (set j: nat | j in s), (set j: nat | j in rest);
      assert Distinct(rest) && first !in rest;
      DistinctSet(rest);
      assert s == [first] + rest;
      assert a == b + {first};
    }
  }

  lemma CandidateSet(view: View, i: nat, similarity: Score, threshold: real)
    requires i < |view|
    ensures |AlikeTo(view, i, similarity, threshold, |view|)| == |CandidatesOf(view, i, similarity, threshold)|
  {
    hide AlikeTo, IsCandidate;
    CandidatesAre(view, i, similarity, threshold, |view|);
    var all := AlikeTo(view, i, similarity, threshold, |view|);
    DistinctSet(all);
    assert (set j: nat | j in all) == CandidatesOf(view, i, similarity, threshold);
  }

  /** The pass does not look at edges when it chooses, so it chooses alike before and after the temporal half. */
  lemma SameCandidates(view: View, timed: View, i: nat, similarity: Score, threshold: real)
    requires i < |view| && SameButEdges(view, timed) && IgnoresEdges(similarity)
    ensures forall j: nat :: IsCandidate(timed, i, similarity, threshold, j) <==> IsCandidate(view, i, similarity, threshold, j)
    ensures forall j: nat, m: nat :: j < |view| && m < |view| ==>
      (GoesBefore(timed, i, similarity, j, m) <==> GoesBefore(view, i, similarity, j, m))
  {
    forall j: nat | j < |view| ensures similarity(timed[i], timed[j]) == similarity(view[i], view[j]) {
      assert timed[i] == view[i].(links := timed[i].links, relations := timed[i].relations);
      assert timed[j] == view[j].(links := timed[j].links, relations := timed[j].relations);
    }
  }

  lemma LinkedAreBest(view: View, timed: View, next: View, i: nat, best: seq<nat>)
    requires i < |view| && UniqueIds(view) && SameButEdges(view, timed) && SameButEdges(view, next) && InRange(best, |view|)
    requires forall t :: HasRelation(next[i], t, SimilarTo) <==> Lists(timed, best, t)
    ensures LinkedTo(next, i) == set j: nat | j in best
    ensures forall t :: HasRelation(next[i], t, SimilarTo) ==> exists j :: j in LinkedTo(next, i) && view[j].id == t
  {
    hide HasRelation;
  }

  lemma ChosenIffLinked(view: View, i: nat, similarity: Score, threshold: real, k: nat)
    requires UniqueIds(view) && i < |view|
    requires forall t :: !HasRelation(view[i], t, SimilarTo)
    ensures var next, best := LinkRelated(view, i, similarity, threshold, k), Best(LinkTemporal(view, i), i, similarity, threshold, k);
      && SameButEdges(view, next) && LinkedTo(next, i) == (set j: nat | j in best)
      && forall t :: HasRelation(next[i], t, SimilarTo) ==> exists j :: j in LinkedTo(next, i) && view[j].id == t
  {
    hide HasRelation, LinkTemporal, LinkAll, Best;
    var timed := LinkTemporal(view, i);
    TemporalEdge(view, i, "");
    var best, next := Best(timed, i, similarity, threshold, k), LinkRelated(view, i, similarity, threshold, k);
    BestInRange(timed, i, similarity, threshold, k);
    forall t ensures HasRelation(next[i], t, SimilarTo) <==> Lists(timed, best, t) {
      TemporalEdge(view, i, t);
      EdgesOfAll(timed, i, best, timed, similarity, t);
    }
    EdgesOfAll(timed, i, best, timed, similarity, "");
    SameTransitive(view, timed, next);
    LinkedAreBest(view, timed, next, i, best);
  }

  /** A link pass on a record without similarity edges gives it one to each of the k most similar live records at or above
      the threshold, the earlier inserted first among equals, and to no others. */
  lemma MostSimilarAreLinked(view: View, i: nat, similarity: Score, threshold: real, k: nat)
    requires UniqueIds(view) && i < |view| && IgnoresEdges(similarity)
    requires forall t :: !HasRelation(view[i], t, SimilarTo)
    ensures var linked, candidates := LinkedTo(LinkRelated(view, i, similarity, threshold, k), i), CandidatesOf(view, i, similarity, threshold);
      && linked <= candidates && |linked| == Min(k, |candidates|)
      && (forall t :: HasRelation(LinkRelated(view, i, similarity, threshold, k)[i], t, SimilarTo) ==> exists j :: j in linked && view[j].id == t)
      && forall j, m :: j in linked && m in candidates && m !in linked ==> GoesBefore(view, i, similarity, j, m)
  {
    hide HasRelation, LinkTemporal, LinkAll, IsCandidate, GoesBefore, AlikeTo, Best, IgnoresEdges, LinkRelated;
    var timed := LinkTemporal(view, i);
    TemporalEdge(view, i, "");
    BestAre(timed, i, similarity, threshold, k);
    SameCandidates(view, timed, i, similarity, threshold);
    CandidateSet(timed, i, similarity, threshold);
    assert CandidatesOf(timed, i, similarity, threshold) == CandidatesOf(view, i, similarity, threshold);
    ChosenIffLinked(view, i, similarity, threshold, k);
    DistinctSet(Best(timed, i, similarity, threshold, k));
  }

  // ---- the other end, the order and the weight of a similarity edge ----

  /** What connecting a similar record adds, at either end. */
  lemma SimilarKeeps(view: View, i: nat, j: nat, score: real, m: nat, t: string, kind: RelationType)
    requires i < |view| && j < |view| && i != j && m < |view|
    ensures var next := LinkSimilar(view, i, j, score);
      && SameButEdges(view, next) && (HasRelation(view[m], t, kind) ==> HasRelation(next[m], t, kind))
      && (kind == SimilarTo ==> (HasRelation(next[m], t, kind) <==>
            HasRelation(view[m], t, kind) || (m == i && t == view[j].id) || (m == j && t == view[i].id)))
      && (OrderedEvents(view[i], view[j]) ==>
            var a, b := if view[i].firstObserved.value < view[j].firstObserved.value then i else j,
                        if view[i].firstObserved.value < view[j].firstObserved.value then j else i;
            (m == a && t == view[b].id && kind == Precedes) || (m == b && t == view[a].id && kind == Follows) ==>
              HasRelation(next[m], t, kind))
  {
    hide HasRelation, Connect;
    ConnectAdds(view, i, j, SimilarTo, SimilarTo, score, m, t, kind);
    var linked := Connect(view, i, j, SimilarTo, SimilarTo, score);
    ConnectAdds(linked, i, j, Precedes, Follows, 1.0, m, t, kind);
    ConnectAdds(linked, j, i, Precedes, Follows, 1.0, m, t, kind);
  }

  lemma {:induction false} EdgesKept(view: View, i: nat, best: seq<nat>, scores: View, similarity: Score, m: nat, t: string, kind: RelationType)
    requires i < |view| && m < |view| && |scores| == |view| && InRange(best, |view|)
    requires forall p :: 0 <= p < |best| ==> best[p] != i
    ensures |LinkAll(view, i, best, scores, similarity)| == |view|
    ensures HasRelation(view[m], t, kind) ==> HasRelation(LinkAll(view, i, best, scores, similarity)[m], t, kind)
    decreases |best|
  {
    hide HasRelation, LinkSimilar;
    SameLength(view, i, best, scores, similarity);
    if best != [] {
      var score := similarity(scores[i], scores[best[0]]);
      LinkSimilarLength(view, i, best[0], score);
      SimilarKeeps(view, i, best[0], score, m, t, kind);
      EdgesKept(LinkSimilar(view, i, best[0], score), i, best[1..], scores, similarity, m, t, kind);
    }
  }

  /** At the other ends: the chosen records gain the edge back, and nobody else gains a similarity edge. */
  lemma {:induction false} OtherEnds(view: View, i: nat, best: seq<nat>, scores: View, similarity: Score, m: nat, t: string)
    requires i < |view| && m < |view| && m != i && |scores| == |view| && InRange(best, |view|)
    requires forall p :: 0 <= p < |best| ==> best[p] != i
    ensures var next := LinkAll(view, i, best, scores, similarity);
      |next| == |view| && (HasRelation(next[m], t, SimilarTo) <==> HasRelation(view[m], t, SimilarTo) || (m in best && view[i].id == t))
    decreases |best|
  {
    hide HasRelation, LinkSimilar;
    SameLength(view, i, best, scores, similarity);
    if best != [] {
      var score := similarity(scores[i], scores[best[0]]);
      LinkSimilarLength(view, i, best[0], score);
      SimilarKeeps(view, i, best[0], score, m, t, SimilarTo);
      OtherEnds(LinkSimilar(view, i, best[0], score), i, best[1..], scores, similarity, m, t);
      assert best == [best[0]] + best[1..];
    }
  }

  lemma {:induction false} AllSame(view: View, i: nat, best: seq<nat>, scores: View, similarity: Score)
    requires i < |view| && |scores| == |view| && InRange(best, |view|)
    requires forall p :: 0 <= p < |best| ==> best[p] != i
    ensures SameButEdges(view, LinkAll(view, i, best, scores, similarity))
  {
    EdgesOfAll(view, i, best, scores, similarity, "");
  }

  /** Chosen events of a shared asset at different times end up in order. */
  lemma {:induction false} ChosenInOrder(view: View, i: nat, best: seq<nat>, scores: View, similarity: Score, j: nat)
    requires i < |view| && |scores| == |view| && InRange(best, |view|) && j in best && j < |view|
    requires forall p :: 0 <= p < |best| ==> best[p] != i
    requires OrderedEvents(view[i], view[j])
    ensures |LinkAll(view, i, best, scores, similarity)| == |view|
    ensures var a, b := if view[i].firstObserved.value < view[j].firstObserved.value then i else j,
                        if view[i].firstObserved.value < view[j].firstObserved.value then j else i;
      Joined(LinkAll(view, i, best, scores, similarity), a, b)
    decreases |best|
  {
    hide HasRelation, LinkSimilar;
    SameLength(view, i, best, scores, similarity);
    var score := similarity(scores[i], scores[best[0]]);
    var next := LinkSimilar(view, i, best[0], score);
    LinkSimilarLength(view, i, best[0], score);
    SimilarKeeps(view, i, best[0], score, i, "", SimilarTo);
    var a, b := if view[i].firstObserved.value < view[j].firstObserved.value then i else j,
                if view[i].firstObserved.value < view[j].firstObserved.value then j else i;
    if best[0] == j {
      SimilarKeeps(view, i, j, score, a, view[b].id, Precedes);
      SimilarKeeps(view, i, j, score, b, view[a].id, Follows);
      EdgesKept(next, i, best[1..], scores, similarity, a, view[b].id, Precedes);
      EdgesKept(next, i, best[1..], scores, similarity, b, view[a].id, Follows);
      AllSame(next, i, best[1..], scores, similarity);
    } else {
      assert best == [best[0]] + best[1..];
      ChosenInOrder(next, i, best[1..], scores, similarity, j);
    }
  }

  /** Two events of a shared asset, at different times. */
  ghost predicate InSequence(a: Rec, b: Rec) {
    && a.tier == Episodic && b.tier == Episodic && (exists asset :: asset in a.assets && asset in b.assets)
    && a.firstObserved.Some? && b.firstObserved.Some? && a.firstObserved.value != b.firstObserved.value
  }

  lemma SequenceIsOrdered(a: Rec, b: Rec)
    ensures SharesAsset(a, b) <==> exists asset :: asset in a.assets && asset in b.assets
    ensures OrderedEvents(a, b) <==> InSequence(a, b)
  {
    if asset :| asset in a.assets && asset in b.assets {
      var k :| 0 <= k < |a.assets| && a.assets[k] == asset;
    }
    if SharesAsset(a, b) {
      var k :| 0 <= k < |a.assets| && a.assets[k] in b.assets;
      assert a.assets[k] in a.assets;
    }
  }

  /** The edges run both ways; and where both ends are events of a shared asset at different times, they are in order. */
  lemma SimilarityIsMutual(view: View, i: nat, similarity: Score, threshold: real, k: nat, j: nat)
    requires UniqueIds(view) && i < |view| && j < |view| && IgnoresEdges(similarity)
    requires forall t :: !HasRelation(view[i], t, SimilarTo)
    requires j in LinkedTo(LinkRelated(view, i, similarity, threshold, k), i)
    ensures var next := LinkRelated(view, i, similarity, threshold, k);
      && HasRelation(next[j], view[i].id, SimilarTo)
      && (InSequence(view[i], view[j]) ==>
            Joined(next, if view[i].firstObserved.value < view[j].firstObserved.value then i else j,
                   if view[i].firstObserved.value < view[j].firstObserved.value then j else i))
  {
    hide HasRelation, LinkTemporal, LinkAll, Best, Joined;
    var timed := LinkTemporal(view, i);
    TemporalEdge(view, i, "");
    var best, next := Best(timed, i, similarity, threshold, k), LinkRelated(view, i, similarity, threshold, k);
    ChosenIffLinked(view, i, similarity, threshold, k);
    BestInRange(timed, i, similarity, threshold, k);
    assert j in best;
    SequenceIsOrdered(view[i], view[j]);
    assert forall p :: 0 <= p < |best| ==> timed[best[p]].id != timed[i].id;
    OtherEnds(timed, i, best, timed, similarity, j, view[i].id);
    if InSequence(view[i], view[j]) {
      ChosenInOrder(timed, i, best, timed, similarity, j);
    }
  }

  lemma LastIsThere(s: seq<Relation>, x: Relation)
    ensures x in s + [x]
  {
    assert (s + [x])[|s|] == x;
  }

  lemma ConnectWeighs(view: View, a: nat, b: nat, ab: RelationType, ba: RelationType, c: real, m: nat, x: Relation)
    requires a < |view| && b < |view| && a != b && m < |view|
    ensures var next := Connect(view, a, b, ab, ba, c);
      && (x in view[m].relations ==> x in next[m].relations)
      && (!HasRelation(view[a], view[b].id, ab) ==> Relation(view[b].id, ab, c) in next[a].relations)
      && (!HasRelation(view[b], view[a].id, ba) ==> Relation(view[a].id, ba, c) in next[b].relations)
  {
    LastIsThere(view[a].relations, Relation(view[b].id, ab, c));
    LastIsThere(view[b].relations, Relation(view[a].id, ba, c));
  }

  lemma ConnectLength(view: View, a: nat, b: nat, ab: RelationType, ba: RelationType, c: real)
    requires a < |view| && b < |view|
    ensures |Connect(view, a, b, ab, ba, c)| == |view|
  {
  }

  lemma SimilarWeighs(view: View, i: nat, j: nat, score: real, m: nat, x: Relation)
    requires i < |view| && j < |view| && i != j && m < |view|
    ensures var next := LinkSimilar(view, i, j, score);
      && |next| == |view| && (x in view[m].relations ==> x in next[m].relations)
      && (!HasRelation(view[i], view[j].id, SimilarTo) ==> Relation(view[j].id, SimilarTo, score) in next[i].relations)
      && (!HasRelation(view[j], view[i].id, SimilarTo) ==> Relation(view[i].id, SimilarTo, score) in next[j].relations)
  {
    hide HasRelation, Connect;
    var linked := Connect(view, i, j, SimilarTo, SimilarTo, score);
    LinkSimilarLength(view, i, j, score);
    ConnectLength(view, i, j, SimilarTo, SimilarTo, score);
    ConnectWeighs(view, i, j, SimilarTo, SimilarTo, score, m, x);
    ConnectWeighs(linked, i, j, Precedes, Follows, 1.0, m, x);
    ConnectWeighs(linked, j, i, Precedes, Follows, 1.0, m, x);
    ConnectWeighs(linked, i, j, Precedes, Follows, 1.0, i, Relation(view[j].id, SimilarTo, score));
    ConnectWeighs(linked, j, i, Precedes, Follows, 1.0, i, Relation(view[j].id, SimilarTo, score));
    ConnectWeighs(linked, i, j, Precedes, Follows, 1.0, j, Relation(view[i].id, SimilarTo, score));
    ConnectWeighs(linked, j, i, Precedes, Follows, 1.0, j, Relation(view[i].id, SimilarTo, score));
  }

  lemma {:induction false} RelationsKept(view: View, i: nat, best: seq<nat>, scores: View, similarity: Score, m: nat, x: Relation)
    requires i < |view| && m < |view| && |scores| == |view| && InRange(best, |view|)
    requires forall p :: 0 <= p < |best| ==> best[p] != i
    ensures |LinkAll(view, i, best, scores, similarity)| == |view|
    ensures x in view[m].relations ==> x in LinkAll(view, i, best, scores, similarity)[m].relations
    decreases |best|
  {
    hide HasRelation, LinkSimilar;
    SameLength(view, i, best, scores, similarity);
    if best != [] {
      var score := similarity(scores[i], scores[best[0]]);
      SimilarWeighs(view, i, best[0], score, m, x);
      RelationsKept(LinkSimilar(view, i, best[0], score), i, best[1..], scores, similarity, m, x);
    }
  }

  lemma SameIds(a: View, b: View)
    requires SameButEdges(a, b) && UniqueIds(a)
    ensures UniqueIds(b)
  {
  }

  lemma {:induction false} WeightOfAll(view: View, i: nat, best: seq<nat>, scores: View, similarity: Score, j: nat)
    requires i < |view| && |scores| == |view| && InRange(best, |view|) && Distinct(best) && j in best && j < |view|
    requires UniqueIds(view) && forall p :: 0 <= p < |best| ==> best[p] != i
    requires !HasRelation(view[i], view[j].id, SimilarTo)
    ensures var next, weight := LinkAll(view, i, best, scores, similarity), similarity(scores[i], scores[j]);
      && |next| == |view| && Relation(view[j].id, SimilarTo, weight) in next[i].relations
      && (!HasRelation(view[j], view[i].id, SimilarTo) ==> Relation(view[i].id, SimilarTo, weight) in next[j].relations)
    decreases |best|
  {
    hide HasRelation, LinkSimilar;
    SameLength(view, i, best, scores, similarity);
    var score := similarity(scores[i], scores[best[0]]);
    var next := LinkSimilar(view, i, best[0], score);
    LinkSimilarLength(view, i, best[0], score);
    if best[0] == j {
      SimilarWeighs(view, i, j, score, i, Relation("", SimilarTo, 0.0));
      RelationsKept(next, i, best[1..], scores, similarity, i, Relation(view[j].id, SimilarTo, score));
      RelationsKept(next, i, best[1..], scores, similarity, j, Relation(view[i].id, SimilarTo, score));
    } else {
      assert best == [best[0]] + best[1..];
      SimilarKeeps(view, i, best[0], score, i, view[j].id, SimilarTo);
      SimilarKeeps(view, i, best[0], score, j, view[i].id, SimilarTo);
      SameIds(view, next);
      WeightOfAll(next, i, best[1..], scores, similarity, j);
    }
  }

  lemma TemporalOther(view: View, i: nat, m: nat, t: string)
    requires i < |view| && m < |view|
    ensures var next := LinkTemporal(view, i);
      |next| == |view| && (HasRelation(next[m], t, SimilarTo) <==> HasRelation(view[m], t, SimilarTo))
  {
    hide HasRelation, Connect;
    var older, newer := LatestOlder(view, i, |view|), EarliestNewer(view, i, |view|);
    var first := view;
    if older >= 0 {
      ConnectAdds(view, older, i, Precedes, Follows, 1.0, m, t, SimilarTo);
      first := Connect(view, older, i, Precedes, Follows, 1.0);
    }
    if newer >= 0 {
      ConnectAdds(first, i, newer, Precedes, Follows, 1.0, m, t, SimilarTo);
    }
  }

  /** A similarity edge carries the similarity as its weight, at both ends if it is new at both. */
  lemma SimilarityIsWeight(view: View, i: nat, similarity: Score, threshold: real, k: nat, j: nat)
    requires UniqueIds(view) && i < |view| && j < |view| && IgnoresEdges(similarity)
    requires forall t :: !HasRelation(view[i], t, SimilarTo)
    requires j in LinkedTo(LinkRelated(view, i, similarity, threshold, k), i)
    ensures var next, weight := LinkRelated(view, i, similarity, threshold, k), similarity(view[i], view[j]);
      && Relation(view[j].id, SimilarTo, weight) in next[i].relations
      && (!HasRelation(view[j], view[i].id, SimilarTo) ==> Relation(view[i].id, SimilarTo, weight) in next[j].relations)
  {
    hide HasRelation, LinkTemporal, LinkAll, Best, IsCandidate, GoesBefore;
    var timed := LinkTemporal(view, i);
    TemporalEdge(view, i, view[j].id);
    TemporalOther(view, i, j, view[i].id);
    var best := Best(timed, i, similarity, threshold, k);
    ChosenIffLinked(view, i, similarity, threshold, k);
    BestInRange(timed, i, similarity, threshold, k);
    BestAre(timed, i, similarity, threshold, k);
    SameIds(view, timed);
    assert j in best;
    assert timed[i] == view[i].(links := timed[i].links, relations := timed[i].relations);
    assert timed[j] == view[j].(links := timed[j].links, relations := timed[j].relations);
    WeightOfAll(timed, i, best, timed, similarity, j);
  }

  // ---- neighbours in time ----

  /** b comes right after a among the live events that share an asset with record i, which is one of the two; of events
      at the same time the first inserted counts. */
  ghost predicate NextInTime(view: View, i: nat, a: nat, b: nat) {
    && a < |view| && b < |view| && (a == i || b == i) && InSequence(view[a], view[b])
    && view[a].firstObserved.value < view[b].firstObserved.value
    && (forall m: nat :: m < |view| && m != i && (m == a || m == b) ==> !view[m].quarantined && view[m].ready)
    && forall m: nat :: m < |view| && m != i && !view[m].quarantined && view[m].ready && InSequence(view[m], view[i]) ==>
         !(view[a].firstObserved.value < view[m].firstObserved.value < view[b].firstObserved.value)
         && (a != i && view[m].firstObserved == view[a].firstObserved ==> a <= m)
         && (b != i && view[m].firstObserved == view[b].firstObserved ==> b <= m)
  }

  lemma ComparableIs(view: View, i: nat, j: nat)
    requires UniqueIds(view) && i < |view| && j < |view|
    ensures Comparable(view, i, j) <==> i != j && !view[j].quarantined && view[j].ready && InSequence(view[j], view[i])
  {
    SequenceIsOrdered(view[j], view[i]);
  }

  lemma SequenceIsMutual(a: Rec, b: Rec)
    ensures InSequence(a, b) <==> InSequence(b, a)
    ensures InSequence(a, b) ==> a.firstObserved.Some? && b.firstObserved.Some?
  {
  }

  /** The chronological half adds precedes edges between next neighbours in time only, one of them the record itself. */
  lemma OnlyNeighboursJoined(view: View, i: nat, a: nat, b: nat)
    requires UniqueIds(view) && i < |view| && a < |view| && b < |view|
    requires var next := LinkTemporal(view, i); |next| == |view| && HasRelation(next[a], view[b].id, Precedes) && !HasRelation(view[a], view[b].id, Precedes)
    ensures NextInTime(view, i, a, b)
  {
    hide HasRelation, Connect, Comparable, InSequence;
    var older, newer := LatestOlder(view, i, |view|), EarliestNewer(view, i, |view|);
    forall m: nat | m < |view|
      ensures Comparable(view, i, m) <==> i != m && !view[m].quarantined && view[m].ready && InSequence(view[m], view[i])
      ensures InSequence(view[m], view[i]) <==> InSequence(view[i], view[m])
    {
      ComparableIs(view, i, m);
      SequenceIsMutual(view[i], view[m]);
    }
    var first := view;
    if older >= 0 {
      ConnectAdds(view, older, i, Precedes, Follows, 1.0, a, view[b].id, Precedes);
      first := Connect(view, older, i, Precedes, Follows, 1.0);
    }
    if newer >= 0 {
      ConnectAdds(first, i, newer, Precedes, Follows, 1.0, a, view[b].id, Precedes);
    }
  }
}
