/** What a link pass reports, and in which order (core/evolve/memory_ops.py). */
module LinkReports {
  import opened Basics
  import opened Sorting
  import opened MemoryStore
  import opened Timeline
  import opened TimelineRuns
  import opened SimilarLinks

  // ---- neighbours in time ----

  /** The event right before, or right after, the i-th record. */
  ghost predicate IsBefore(view: View, i: nat, j: nat) {
    i < |view| && NextInTime(view, i, j, i)
  }

  ghost predicate IsAfter(view: View, i: nat, j: nat) {
    i < |view| && NextInTime(view, i, i, j)
  }

  lemma NeighboursAre(view: View, i: nat)
    requires UniqueIds(view) && i < |view|
    ensures forall j: nat :: IsBefore(view, i, j) <==> j == LatestOlder(view, i, |view|)
    ensures forall j: nat :: IsAfter(view, i, j) <==> j == EarliestNewer(view, i, |view|)
  {
    hide Comparable, InSequence;
    forall m: nat | m < |view|
      ensures Comparable(view, i, m) <==> i != m && !view[m].quarantined && view[m].ready && InSequence(view[m], view[i])
      ensures InSequence(view[m], view[i]) <==> InSequence(view[i], view[m])
      ensures InSequence(view[m], view[i]) ==> view[m].firstObserved.Some? && view[i].firstObserved.Some?
    {
      ComparableIs(view, i, m);
      SequenceIsMutual(view[i], view[m]);
    }
    var older, newer := LatestOlder(view, i, |view|), EarliestNewer(view, i, |view|);
    forall j: nat ensures IsBefore(view, i, j) <==> j == older {
      if IsBefore(view, i, j) {
        assert IsOlder(view, i, j);
      }
    }
    forall j: nat ensures IsAfter(view, i, j) <==> j == newer {
      if IsAfter(view, i, j) {
        assert IsNewer(view, i, j);
      }
    }
  }

  // ---- joining lists ----

  /** The ids at p and q of the list come from choices in this order. */
  ghost predicate FromChoices(view: View, best: seq<nat>, a: string, b: string) {
    exists x, y :: 0 <= x < y < |best| && best[x] < |view| && best[y] < |view| && view[best[x]].id == a && view[best[y]].id == b
  }

  ghost predicate TailOrdered(view: View, best: seq<nat>, r: seq<string>, n: nat) {
    forall p, q :: n <= p < q < |r| ==> FromChoices(view, best, r[p], r[q])
  }

  lemma ChoicesLater(view: View, best: seq<nat>, a: string, b: string)
    requires best != []
    ensures FromChoices(view, best[1..], a, b) ==> FromChoices(view, best, a, b)
    ensures best[0] < |view| && a == view[best[0]].id && Lists(view, best[1..], b) ==> FromChoices(view, best, a, b)
  {
    var rest := best[1..];
    if x, y :| 0 <= x < y < |rest| && rest[x] < |view| && rest[y] < |view| && view[rest[x]].id == a && view[rest[y]].id == b {
      assert best[x + 1] == rest[x] && best[y + 1] == rest[y];
    }
    if y :| 0 <= y < |rest| && rest[y] < |view| && view[rest[y]].id == b {
      assert best[y + 1] == rest[y];
    }
  }

  lemma ListsLater(view: View, best: seq<nat>, t: string)
    requires best != []
    ensures Lists(view, best, t) <==> (best[0] < |view| && view[best[0]].id == t) || Lists(view, best[1..], t)
  {
    if p :| 0 <= p < |best| && best[p] < |view| && view[best[p]].id == t {
      assert p > 0 ==> best[1..][p - 1] == best[p];
    }
    if p :| 0 <= p < |best[1..]| && best[1..][p] < |view| && view[best[1..][p]].id == t {
      assert best[p + 1] == best[1..][p];
    }
  }

  lemma {:induction false} JoinedAre(linked: seq<string>, view: View, best: seq<nat>)
    requires InRange(best, |view|)
    ensures linked <= JoinIds(linked, view, best) && TailOrdered(view, best, JoinIds(linked, view, best), |linked|)
    ensures forall p :: |linked| <= p < |JoinIds(linked, view, best)| ==> Lists(view, best, JoinIds(linked, view, best)[p])
    ensures forall t :: t in JoinIds(linked, view, best) <==> t in linked || Lists(view, best, t)
    decreases |best|
  {
    hide FromChoices, Lists;
    var r := JoinIds(linked, view, best);
    if best == [] {
      NoneListed(view, "");
      forall t ensures !Lists(view, best, t) {
        NoneListed(view, t);
      }
    } else {
      var id := view[best[0]].id;
      var more := if id in linked then linked else linked + [id];
      JoinedAre(more, view, best[1..]);
      forall t ensures Lists(view, best, t) <==> id == t || Lists(view, best[1..], t) {
        ListsLater(view, best, t);
      }
      forall p, q | |linked| <= p < q < |r| ensures FromChoices(view, best, r[p], r[q]) {
        ChoicesLater(view, best, r[p], r[q]);
        if p == |linked| && |more| > |linked| {
          assert r[p] == more[p];
        }
      }
    }
  }

  // ---- the report ----

  ghost function TimeNeighbours(view: View, i: nat): nat {
    (if exists j: nat :: IsBefore(view, i, j) then 1 else 0) + (if exists j: nat :: IsAfter(view, i, j) then 1 else 0)
  }

  lemma TemporalReport(view: View, i: nat)
    requires UniqueIds(view) && i < |view|
    ensures |TemporalIds(view, i)| == TimeNeighbours(view, i)
    ensures forall j: nat :: IsBefore(view, i, j) ==> j < |view| && TemporalIds(view, i) != [] && TemporalIds(view, i)[0] == view[j].id
    ensures forall j: nat :: IsAfter(view, i, j) ==>
      j < |view| && TemporalIds(view, i) != [] && TemporalIds(view, i)[TimeNeighbours(view, i) - 1] == view[j].id
    ensures forall t :: t in TemporalIds(view, i) ==>
      exists j: nat :: j < |view| && view[j].id == t && (IsBefore(view, i, j) || IsAfter(view, i, j))
  {
    hide NextInTime, Comparable;
    NeighboursAre(view, i);
    var older, newer := LatestOlder(view, i, |view|), EarliestNewer(view, i, |view|);
    if older >= 0 {
      assert IsBefore(view, i, older);
    }
    if newer >= 0 {
      assert IsAfter(view, i, newer);
    }
  }

  lemma ListedAre(view: View, timed: View, best: seq<nat>, t: string)
    requires SameButEdges(view, timed)
    ensures Lists(timed, best, t) <==> exists j: nat :: j < |view| && view[j].id == t && j in best
  {
    if p :| 0 <= p < |best| && best[p] < |timed| && timed[best[p]].id == t {
      assert view[best[p]].id == t && best[p] in best;
    }
  }

  /** A pass reports the event right before, then the event right after, then the similar records it chose; and nothing
      else. */
  lemma ReportIs(view: View, i: nat, similarity: Score, threshold: real, k: nat)
    requires UniqueIds(view) && i < |view| && IgnoresEdges(similarity)
    requires forall t :: !HasRelation(view[i], t, SimilarTo)
    ensures TimeNeighbours(view, i) <= |LinkedIds(view, i, similarity, threshold, k)|
    ensures forall j: nat :: IsBefore(view, i, j) ==>
      j < |view| && LinkedIds(view, i, similarity, threshold, k) != [] && LinkedIds(view, i, similarity, threshold, k)[0] == view[j].id
    ensures forall j: nat :: IsAfter(view, i, j) ==>
      j < |view| && TimeNeighbours(view, i) > 0
      && LinkedIds(view, i, similarity, threshold, k)[TimeNeighbours(view, i) - 1] == view[j].id
    ensures forall t :: t in LinkedIds(view, i, similarity, threshold, k) <==>
      exists j: nat :: j < |view| && view[j].id == t
        && (IsBefore(view, i, j) || IsAfter(view, i, j) || j in LinkedTo(LinkRelated(view, i, similarity, threshold, k), i))
  {
    hide TemporalIds, Best, LinkAll, LinkTemporal, LinkRelated, JoinIds, HasRelation, IsBefore, IsAfter, Lists, TailOrdered, IgnoresEdges, TimeNeighbours;
    hide IsCandidate, GoesBefore, AlikeTo;
    var r, timed := LinkedIds(view, i, similarity, threshold, k), LinkTemporal(view, i);
    TemporalEdge(view, i, "");
    var best := Best(timed, i, similarity, threshold, k);
    BestInRange(timed, i, similarity, threshold, k);
    JoinedAre(TemporalIds(view, i), timed, best);
    TemporalReport(view, i);
    ChosenIffLinked(view, i, similarity, threshold, k);
    forall t ensures Lists(timed, best, t) <==> exists j: nat :: j < |view| && view[j].id == t && j in best {
      ListedAre(view, timed, best, t);
    }
    forall j: nat | (IsBefore(view, i, j) || IsAfter(view, i, j)) && j < |view| ensures view[j].id in TemporalIds(view, i) {
    }
  }

  /** The similar records are reported the most similar first, among equals the earlier inserted first. */
  lemma ReportDescends(view: View, i: nat, similarity: Score, threshold: real, k: nat, p: nat, q: nat) returns (j: nat, m: nat)
    requires UniqueIds(view) && i < |view| && IgnoresEdges(similarity)
    requires forall t :: !HasRelation(view[i], t, SimilarTo)
    requires TimeNeighbours(view, i) <= p < q < |LinkedIds(view, i, similarity, threshold, k)|
    ensures j < |view| && m < |view| && LinkedIds(view, i, similarity, threshold, k)[p] == view[j].id
    ensures LinkedIds(view, i, similarity, threshold, k)[q] == view[m].id && GoesBefore(view, i, similarity, j, m)
  {
    hide TemporalIds, Best, LinkAll, LinkTemporal, LinkRelated, JoinIds, HasRelation, IsBefore, IsAfter, Lists, IgnoresEdges, TimeNeighbours;
    hide IsCandidate, GoesBefore, AlikeTo;
    var r, timed := LinkedIds(view, i, similarity, threshold, k), LinkTemporal(view, i);
    TemporalEdge(view, i, "");
    var best := Best(timed, i, similarity, threshold, k);
    BestInRange(timed, i, similarity, threshold, k);
    JoinedAre(TemporalIds(view, i), timed, best);
    TemporalReport(view, i);
    assert FromChoices(timed, best, r[p], r[q]);
    var x, y :| 0 <= x < y < |best| && best[x] < |timed| && best[y] < |timed| && timed[best[x]].id == r[p] && timed[best[y]].id == r[q];
    j, m := best[x], best[y];
    var sorted := SortedCandidates(timed, i, similarity, threshold);
    assert best == Take(sorted, k);
    assert PairInOrder(timed, i, similarity, sorted, x, y);
    SameCandidates(view, timed, i, similarity, threshold);
  }

  /** Links are only ever added at the end. */
  lemma LinksAreAppended(view: View, i: nat, similarity: Score, threshold: real, k: nat)
    requires UniqueIds(view) && i < |view|
    ensures LinksGrow(view, LinkRelated(view, i, similarity, threshold, k))
  {
    hide LinkTemporal, TemporalIds, Best, LinkAll, Distinct, UniqueIds;
    var timed := LinkTemporal(view, i);
    TemporalLinks(view, i);
    BestInRange(timed, i, similarity, threshold, k);
    LinkAllLinks(timed, i, Best(timed, i, similarity, threshold, k), timed, similarity);
  }

  // ---- the order of events is certain ----

  /** Every chronological edge that was not there before has full confidence. */
  ghost predicate Certain(view: View, next: View) {
    && |next| == |view|
    && forall m, x :: 0 <= m < |view| && x in next[m].relations && x.kind in {Precedes, Follows} ==>
         x in view[m].relations || x.confidence == 1.0
  }

  lemma CertainTransitive(a: View, b: View, c: View)
    ensures Certain(a, a) && (Certain(a, b) && Certain(b, c) ==> Certain(a, c))
  {
  }

  lemma ConnectCertain(view: View, a: nat, b: nat, ab: RelationType, ba: RelationType, c: real)
    requires a < |view| && b < |view| && (c == 1.0 || ab == ba == SimilarTo)
    ensures Certain(view, Connect(view, a, b, ab, ba, c))
  {
    hide HasRelation;
  }

  lemma SimilarCertain(view: View, i: nat, j: nat, score: real)
    requires i < |view| && j < |view|
    ensures Certain(view, LinkSimilar(view, i, j, score))
  {
    hide Connect, OrderedEvents, Certain;
    var next := Connect(view, i, j, SimilarTo, SimilarTo, score);
    ConnectLength(view, i, j, SimilarTo, SimilarTo, score);
    ConnectCertain(view, i, j, SimilarTo, SimilarTo, score);
    if OrderedEvents(view[i], view[j]) {
      var last := LinkSimilar(view, i, j, score);
      assert last == Connect(next, i, j, Precedes, Follows, 1.0) || last == Connect(next, j, i, Precedes, Follows, 1.0);
      ConnectCertain(next, i, j, Precedes, Follows, 1.0);
      ConnectCertain(next, j, i, Precedes, Follows, 1.0);
      CertainTransitive(view, next, last);
    }
  }

  lemma {:induction false} AllCertain(view: View, i: nat, best: seq<nat>, scores: View, similarity: Score)
    requires i < |view| && |scores| == |view| && InRange(best, |view|)
    ensures Certain(view, LinkAll(view, i, best, scores, similarity))
    decreases |best|
  {
    hide LinkSimilar, Certain;
    CertainTransitive(view, view, view);
    if best != [] {
      var next := LinkSimilar(view, i, best[0], similarity(scores[i], scores[best[0]]));
      LinkSimilarLength(view, i, best[0], similarity(scores[i], scores[best[0]]));
      SimilarCertain(view, i, best[0], similarity(scores[i], scores[best[0]]));
      AllCertain(next, i, best[1..], scores, similarity);
      CertainTransitive(view, next, LinkAll(view, i, best, scores, similarity));
    }
  }

  /** A pass adds chronological edges with full confidence only. */
  lemma OrderIsCertain(view: View, i: nat, similarity: Score, threshold: real, k: nat)
    requires i < |view|
    ensures Certain(view, LinkRelated(view, i, similarity, threshold, k))
  {
    hide Connect, Comparable, Certain, Best, LinkAll;
    var older, newer := LatestOlder(view, i, |view|), EarliestNewer(view, i, |view|);
    var timed := LinkTemporal(view, i);
    var first := view;
    CertainTransitive(view, view, view);
    if older >= 0 {
      first := Connect(view, older, i, Precedes, Follows, 1.0);
      ConnectLength(view, older, i, Precedes, Follows, 1.0);
      ConnectCertain(view, older, i, Precedes, Follows, 1.0);
    }
    if newer >= 0 {
      ConnectLength(first, i, newer, Precedes, Follows, 1.0);
      ConnectCertain(first, i, newer, Precedes, Follows, 1.0);
    }
    CertainTransitive(view, first, timed);
    BestInRange(timed, i, similarity, threshold, k);
    AllCertain(timed, i, Best(timed, i, similarity, threshold, k), timed, similarity);
    CertainTransitive(view, timed, LinkRelated(view, i, similarity, threshold, k));
  }
}
