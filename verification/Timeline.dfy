/** Linking a memory to its neighbours: adjacent events of a shared asset, and the most similar
    records (core/evolve/memory_ops.py). */
module Timeline {
  import opened Basics
  import opened Sorting
  import opened MemoryStore

  // ---- edges ----

  predicate HasRelation(r: Rec, target: string, kind: RelationType) {
    exists k :: 0 <= k < |r.relations| && r.relations[k].target == target && r.relations[k].kind == kind
  }

  /** One typed edge, without duplicating an edge that is there. */
  function AddRelation(r: Rec, target: string, kind: RelationType, confidence: real): Rec {
    if HasRelation(r, target, kind) then r
    else r.(relations := r.relations + [Relation(target, kind, confidence)])
  }

  /** Both records gain a link and an edge to each other. */
  function Connect(view: View, a: nat, b: nat, ab: RelationType, ba: RelationType, confidence: real): View
    requires a < |view| && b < |view|
  {
    var next := view[a := AddRelation(LinkTo(view[a], view[b].id), view[b].id, ab, confidence)];
    next[b := AddRelation(LinkTo(next[b], view[a].id), view[a].id, ba, confidence)]
  }

  method AddEdge(store: Store, a: nat, target: string, kind: RelationType, confidence: real)
    requires store.Valid() && a < |store.records|
    modifies store.records[a]
    ensures store.Valid()
    ensures store.View() == old(store.View())[a := AddRelation(LinkTo(old(store.View())[a], target), target, kind, confidence)]
  {
    var record := store.records[a];
    if target !in record.links {
      record.links := record.links + [target];
    }
    if !HasRelation(record.State(), target, kind) {
      record.relations := record.relations + [Relation(target, kind, confidence)];
    }
  }

  method ConnectRecords(store: Store, a: nat, b: nat, ab: RelationType, ba: RelationType, confidence: real)
    requires store.Valid() && a < |store.records| && b < |store.records|
    modifies store.records[a], store.records[b]
    ensures store.Valid() && store.View() == Connect(old(store.View()), a, b, ab, ba, confidence)
  {
    var idA, idB := store.records[a].id, store.records[b].id;
    AddEdge(store, a, idB, ab, confidence);
    AddEdge(store, b, idA, ba, confidence);
  }

  // ---- temporal neighbours ----

  predicate SharesAsset(a: Rec, b: Rec) {
    exists k :: 0 <= k < |a.assets| && a.assets[k] in b.assets
  }

  /** j is another live event of a shared asset, observed at a different time than i. */
  predicate Comparable(view: View, i: nat, j: nat)
    requires i < |view| && j < |view|
  {
    && view[i].tier == Episodic && view[i].firstObserved.Some?
    && IsActive(view[j]) && view[j].tier == Episodic && view[j].id != view[i].id
    && view[j].firstObserved.Some? && view[j].firstObserved != view[i].firstObserved
    && SharesAsset(view[j], view[i])
  }

  predicate IsOlder(view: View, i: nat, j: nat)
    requires i < |view| && j < |view|
  {
    Comparable(view, i, j) && view[j].firstObserved.value < view[i].firstObserved.value
  }

  predicate IsNewer(view: View, i: nat, j: nat)
    requires i < |view| && j < |view|
  {
    Comparable(view, i, j) && view[j].firstObserved.value > view[i].firstObserved.value
  }

  /** The latest of the older events among the first n records, the first inserted among equals, or -1. */
  function LatestOlder(view: View, i: nat, n: nat): (j: int)
    requires i < |view| && n <= |view|
    ensures -1 <= j < n && (j >= 0 ==> IsOlder(view, i, j))
    ensures forall k :: 0 <= k < n && IsOlder(view, i, k) ==>
      j >= 0 && view[k].firstObserved.value <= view[j].firstObserved.value && (k < j ==> view[k].firstObserved != view[j].firstObserved)
  {
    if n == 0 then -1
    else
      var j := LatestOlder(view, i, n - 1);
      if IsOlder(view, i, n - 1) && (j < 0 || view[n - 1].firstObserved.value > view[j].firstObserved.value) then n - 1 else j
  }

  /** The earliest of the newer events among the first n records, the first inserted among equals, or -1. */
  function EarliestNewer(view: View, i: nat, n: nat): (j: int)
    requires i < |view| && n <= |view|
    ensures -1 <= j < n && (j >= 0 ==> IsNewer(view, i, j))
    ensures forall k :: 0 <= k < n && IsNewer(view, i, k) ==>
      j >= 0 && view[k].firstObserved.value >= view[j].firstObserved.value && (k < j ==> view[k].firstObserved != view[j].firstObserved)
  {
    if n == 0 then -1
    else
      var j := EarliestNewer(view, i, n - 1);
      if IsNewer(view, i, n - 1) && (j < 0 || view[n - 1].firstObserved.value < view[j].firstObserved.value) then n - 1 else j
  }

  /** Chronology only: the event right before and the event right after. */
  function LinkTemporal(view: View, i: nat): View
    requires i < |view|
  {
    var older, newer := LatestOlder(view, i, |view|), EarliestNewer(view, i, |view|);
    var next := if older >= 0 then Connect(view, older, i, Precedes, Follows, 1.0) else view;
    if newer >= 0 then Connect(next, i, newer, Precedes, Follows, 1.0) else next
  }

  // ---- similar records ----

  /** How alike two records are; everything below holds for any such measure. */
  type Score = (Rec, Rec) -> real

  predicate IsBookkeeping(tag: string) {
    "skill:" <= tag || "quarantine:" <= tag || "root:" <= tag || tag == "insight"
  }

  /** Content tags only, folded to one case. */
  function TagSet(fold: string -> string, r: Rec): set<string> {
    set tag | tag in r.tags && !IsBookkeeping(tag) :: fold(tag)
  }

  function AssetSet(r: Rec): set<string> {
    set asset | asset in r.assets
  }

  /** Weighted overlap of content tags and of assets. */
  function Overlap(fold: string -> string, a: Rec, b: Rec): real {
    0.6 * Jaccard(TagSet(fold, a), TagSet(fold, b)) + 0.4 * Jaccard(AssetSet(a), AssetSet(b))
  }

  /** Rounded to an integer, halves to the even one. */
  function Rounded(x: real): int {
    var f := x.Floor;
    if x - f as real < 0.5 || (x - f as real == 0.5 && f % 2 == 0) then f else f + 1
  }

  /** It is a nearest integer, and the even one where two are equally near. */
  lemma RoundedIsNearest(x: real)
    ensures -0.5 <= Rounded(x) as real - x <= 0.5
    ensures Rounded(x) as real - x == 0.5 || Rounded(x) as real - x == -0.5 ==> Rounded(x) % 2 == 0
  {
  }

  /** The measure in use: the overlap rounded to four decimals. */
  function FamilySimilarity(fold: string -> string): Score {
    (a: Rec, b: Rec) => Rounded(Overlap(fold, a, b) * 10000.0) as real / 10000.0
  }

  /** Before rounding it is a symmetric share, and full exactly between records with the same content tags and the same
      assets, some of each. */
  lemma OverlapIsShare(fold: string -> string, a: Rec, b: Rec)
    ensures Overlap(fold, a, b) == Overlap(fold, b, a)
    ensures 0.0 <= Overlap(fold, a, b) <= 1.0
    ensures Overlap(fold, a, b) == 1.0 <==> TagSet(fold, a) == TagSet(fold, b) != {} && AssetSet(a) == AssetSet(b) != {}
  {
    hide TagSet, AssetSet, Jaccard;
    JaccardIsShare(TagSet(fold, a), TagSet(fold, b));
    JaccardIsShare(AssetSet(a), AssetSet(b));
  }

  /** Rounding keeps it a symmetric share, within half a unit of the fourth decimal; it is full from 0.99995 on. */
  lemma FamilySimilarityIsShare(fold: string -> string, a: Rec, b: Rec)
    ensures FamilySimilarity(fold)(a, b) == FamilySimilarity(fold)(b, a)
    ensures 0.0 <= FamilySimilarity(fold)(a, b) <= 1.0
    ensures -0.00005 <= FamilySimilarity(fold)(a, b) - Overlap(fold, a, b) <= 0.00005
    ensures FamilySimilarity(fold)(a, b) == 1.0 <==> Overlap(fold, a, b) >= 0.99995
  {
    hide Overlap;
    OverlapIsShare(fold, a, b);
  }

  lemma NothingShared(a: set<string>, b: set<string>)
    ensures a * b == {} ==> Jaccard(a, b) == 0.0
  {
    if a + b != {} {
      QuotientOrder(0.0, |a + b| as real, 0.0);
    }
  }

  /** Tags weigh three fifths, assets two. */
  lemma OverlapWeights(fold: string -> string, a: Rec, b: Rec)
    ensures TagSet(fold, a) == TagSet(fold, b) != {} && AssetSet(a) * AssetSet(b) == {} ==> Overlap(fold, a, b) == 0.6
    ensures TagSet(fold, a) * TagSet(fold, b) == {} && AssetSet(a) == AssetSet(b) != {} ==> Overlap(fold, a, b) == 0.4
  {
    hide TagSet, AssetSet;
    JaccardIsShare(TagSet(fold, a), TagSet(fold, b));
    JaccardIsShare(AssetSet(a), AssetSet(b));
    NothingShared(TagSet(fold, a), TagSet(fold, b));
    NothingShared(AssetSet(a), AssetSet(b));
  }

  /** A tag counts as content, in the folded case, unless it is "insight" or one of three kinds of bookkeeping. */
  lemma ContentTags(fold: string -> string, r: Rec, tag: string)
    ensures var with := TagSet(fold, r.(tags := r.tags + [tag]));
      if tag == "insight" || "skill:" <= tag || "root:" <= tag || "quarantine:" <= tag then with == TagSet(fold, r)
      else with == TagSet(fold, r) + {fold(tag)}
  {
  }

  /** Live records other than i that are similar enough, in insertion order. */
  function AlikeTo(view: View, i: nat, similarity: Score, threshold: real, n: nat): seq<nat>
    requires i < |view| && n <= |view|
  {
    if n == 0 then []
    else
      AlikeTo(view, i, similarity, threshold, n - 1)
      + if IsActive(view[n - 1]) && view[n - 1].id != view[i].id && similarity(view[i], view[n - 1]) >= threshold
        then [n - 1] else []
  }

  function Best(view: View, i: nat, similarity: Score, threshold: real, k: nat): seq<nat>
    requires i < |view|
  {
    var score := (j: nat) => if j < |view| then similarity(view[i], view[j]) else 0.0;
    Take(Sort(AlikeTo(view, i, similarity, threshold, |view|), (a: nat, b: nat) => score(a) >= score(b)), k)
  }

  predicate OrderedEvents(a: Rec, b: Rec) {
    && a.tier == Episodic && b.tier == Episodic && SharesAsset(a, b)
    && a.firstObserved.Some? && b.firstObserved.Some? && a.firstObserved != b.firstObserved
  }

  /** A similar record is linked; if both are events of a shared asset at different times, their order is recorded. */
  function LinkSimilar(view: View, i: nat, j: nat, score: real): View
    requires i < |view| && j < |view|
  {
    var next := Connect(view, i, j, SimilarTo, SimilarTo, score);
    if OrderedEvents(view[i], view[j]) then
      if view[i].firstObserved.value < view[j].firstObserved.value then Connect(next, i, j, Precedes, Follows, 1.0)
      else Connect(next, j, i, Precedes, Follows, 1.0)
    else next
  }

  ghost predicate InRange(s: seq<nat>, n: nat) {
    forall p :: 0 <= p < |s| ==> s[p] < n
  }

  function LinkAll(view: View, i: nat, best: seq<nat>, scores: View, similarity: Score): View
    requires i < |view| && |scores| == |view| && InRange(best, |view|)
    decreases |best|
  {
    if best == [] then view
    else
      LinkAll(LinkSimilar(view, i, best[0], similarity(scores[i], scores[best[0]])), i, best[1..], scores, similarity)
  }

  lemma {:induction false} SimilarInRange(view: View, i: nat, similarity: Score, threshold: real, n: nat)
    requires i < |view| && n <= |view|
    ensures forall j :: j in AlikeTo(view, i, similarity, threshold, n) ==> j < n && view[j].id != view[i].id
  {
    if n > 0 {
      SimilarInRange(view, i, similarity, threshold, n - 1);
    }
  }

  lemma BestInRange(view: View, i: nat, similarity: Score, threshold: real, k: nat)
    requires i < |view|
    ensures InRange(Best(view, i, similarity, threshold, k), |view|)
    ensures forall p :: 0 <= p < |Best(view, i, similarity, threshold, k)| ==>
      var j := Best(view, i, similarity, threshold, k)[p]; j < |view| && view[j].id != view[i].id
  {
    var all := AlikeTo(view, i, similarity, threshold, |view|);
    var score := (j: nat) => if j < |view| then similarity(view[i], view[j]) else 0.0;
    SimilarInRange(view, i, similarity, threshold, |view|);
    var sorted := Sort(all, (a: nat, b: nat) => score(a) >= score(b));
    SortMembers(all, (a: nat, b: nat) => score(a) >= score(b));
    forall p | 0 <= p < |Take(sorted, k)|
      ensures var j := Take(sorted, k)[p]; j < |view| && view[j].id != view[i].id
    {
      assert sorted[p] in sorted;
    }
  }

  lemma {:induction false} SameLength(view: View, i: nat, best: seq<nat>, scores: View, similarity: Score)
    requires i < |view| && |scores| == |view| && InRange(best, |view|)
    ensures |LinkAll(view, i, best, scores, similarity)| == |view|
    decreases |best|
  {
    if best != [] {
      SameLength(LinkSimilar(view, i, best[0], similarity(scores[i], scores[best[0]])), i, best[1..], scores, similarity);
    }
  }

  function LinkRelated(view: View, i: nat, similarity: Score, threshold: real, k: nat): (next: View)
    requires i < |view|
    ensures |next| == |view|
  {
    var timed := LinkTemporal(view, i);
    BestInRange(timed, i, similarity, threshold, k);
    SameLength(timed, i, Best(timed, i, similarity, threshold, k), timed, similarity);
    LinkAll(timed, i, Best(timed, i, similarity, threshold, k), timed, similarity)
  }

  /** The ids of the neighbours in time, the older first. */
  function TemporalIds(view: View, i: nat): seq<string>
    requires i < |view|
  {
    var older, newer := LatestOlder(view, i, |view|), EarliestNewer(view, i, |view|);
    (if older >= 0 then [view[older].id] else []) + (if newer >= 0 then [view[newer].id] else [])
  }

  /** Further neighbours join the list once each. */
  function JoinIds(linked: seq<string>, view: View, best: seq<nat>): seq<string>
    requires InRange(best, |view|)
    decreases |best|
  {
    if best == [] then linked
    else
      var id := view[best[0]].id;
      JoinIds(if id in linked then linked else linked + [id], view, best[1..])
  }

  /** The ids a link pass reports. */
  function LinkedIds(view: View, i: nat, similarity: Score, threshold: real, k: nat): seq<string>
    requires i < |view|
  {
    var timed := LinkTemporal(view, i);
    BestInRange(timed, i, similarity, threshold, k);
    JoinIds(TemporalIds(view, i), timed, Best(timed, i, similarity, threshold, k))
  }

  lemma NextId(linked: seq<string>, view: View, best: seq<nat>, n: nat)
    requires n < |best| && InRange(best, |view|)
    ensures var id := view[best[n]].id;
      JoinIds(linked, view, best[n..]) == JoinIds(if id in linked then linked else linked + [id], view, best[n + 1..])
  {
    assert best[n..][0] == best[n] && best[n..][1..] == best[n + 1..];
  }

  lemma NoMoreIds(linked: seq<string>, view: View, best: seq<nat>)
    ensures JoinIds(linked, view, best[|best|..]) == linked
  {
  }

  lemma LinkSimilarLength(view: View, i: nat, j: nat, score: real)
    requires i < |view| && j < |view|
    ensures |LinkSimilar(view, i, j, score)| == |view|
  {
  }

  lemma NextSimilar(view: View, i: nat, best: seq<nat>, n: nat, scores: View, similarity: Score)
    requires i < |view| && |scores| == |view| && n < |best| && InRange(best, |view|)
    ensures var next := LinkSimilar(view, i, best[n], similarity(scores[i], scores[best[n]]));
      |next| == |view| && LinkAll(view, i, best[n..], scores, similarity) == LinkAll(next, i, best[n + 1..], scores, similarity)
  {
    hide Connect;
    assert best[n..][0] == best[n] && best[n..][1..] == best[n + 1..];
    LinkSimilarLength(view, i, best[n], similarity(scores[i], scores[best[n]]));
  }

  lemma NoneSimilar(view: View, i: nat, best: seq<nat>, scores: View, similarity: Score)
    requires i < |view| && |scores| == |view|
    ensures LinkAll(view, i, best[|best|..], scores, similarity) == view
  {
  }

  method LinkTemporalRecords(store: Store, i: nat) returns (linked: seq<string>)
    requires store.Valid() && i < |store.records|
    modifies store.records
    ensures store.Valid() && store.View() == LinkTemporal(old(store.View()), i)
    ensures linked == TemporalIds(old(store.View()), i)
  {
    hide Connect, Comparable;
    linked := [];
    var older, newer := LatestOlder(store.View(), i, |store.records|), EarliestNewer(store.View(), i, |store.records|);
    if older >= 0 {
      ConnectRecords(store, older, i, Precedes, Follows, 1.0);
      linked := linked + [store.records[older].id];
    }
    if newer >= 0 {
      ConnectRecords(store, i, newer, Precedes, Follows, 1.0);
      if store.records[newer].id !in linked {
        linked := linked + [store.records[newer].id];
      }
    }
  }

  method LinkSimilarRecord(store: Store, i: nat, j: nat, score: real)
    requires store.Valid() && i < |store.records| && j < |store.records|
    modifies store.records[i], store.records[j]
    ensures store.Valid() && store.View() == LinkSimilar(old(store.View()), i, j, score)
  {
    hide Connect, SharesAsset;
    var a, b := store.records[i].State(), store.records[j].State();
    ConnectRecords(store, i, j, SimilarTo, SimilarTo, score);
    if OrderedEvents(a, b) {
      if a.firstObserved.value < b.firstObserved.value {
        ConnectRecords(store, i, j, Precedes, Follows, 1.0);
      } else {
        ConnectRecords(store, j, i, Precedes, Follows, 1.0);
      }
    }
  }

  method LinkRelatedRecords(store: Store, i: nat, similarity: Score, threshold: real, k: nat) returns (linked: seq<string>)
    requires store.Valid() && i < |store.records|
    modifies store.records
    ensures store.Valid() && store.View() == LinkRelated(old(store.View()), i, similarity, threshold, k)
    ensures linked == LinkedIds(old(store.View()), i, similarity, threshold, k)
  {
    hide Connect, Comparable, LinkSimilar, Best, LinkAll, JoinIds;
    linked := LinkTemporalRecords(store, i);
    var scores := store.View();
    var best := Best(scores, i, similarity, threshold, k);
    BestInRange(scores, i, similarity, threshold, k);
    ghost var final, reported := LinkAll(scores, i, best, scores, similarity), JoinIds(linked, scores, best);
    assert best[0..] == best;
    for n := 0 to |best|
      invariant store.Valid() && |store.View()| == |scores| && |store.records| == |scores|
      invariant LinkAll(store.View(), i, best[n..], scores, similarity) == final
      invariant JoinIds(linked, scores, best[n..]) == reported
    {
      var j := best[n];
      NextSimilar(store.View(), i, best, n, scores, similarity);
      LinkSimilarRecord(store, i, j, similarity(scores[i], scores[j]));
      NextId(linked, scores, best, n);
      if scores[j].id !in linked {
        linked := linked + [scores[j].id];
      }
    }
    NoneSimilar(store.View(), i, best, scores, similarity);
    NoMoreIds(linked, scores, best);
  }

  // ---- what is reported ----

  /** Same records in the same places, with at least their links, new ones at the end. */
  ghost predicate LinksGrow(a: View, b: View) {
    && |a| == |b|
    && forall i :: 0 <= i < |a| ==> a[i].id == b[i].id && a[i].links <= b[i].links
  }

  lemma EdgeLinks(r: Rec, target: string, kind: RelationType, c: real)
    ensures var next := AddRelation(LinkTo(r, target), target, kind, c);
      next.id == r.id && target in next.links && r.links <= next.links
  {
    hide HasRelation;
  }

  lemma ConnectLinks(view: View, a: nat, b: nat, ab: RelationType, ba: RelationType, c: real)
    requires a < |view| && b < |view|
    ensures var next := Connect(view, a, b, ab, ba, c);
      LinksGrow(view, next) && view[b].id in next[a].links && view[a].id in next[b].links
  {
    hide HasRelation, AddRelation;
    var first := view[a := AddRelation(LinkTo(view[a], view[b].id), view[b].id, ab, c)];
    EdgeLinks(view[a], view[b].id, ab, c);
    EdgeLinks(first[b], view[a].id, ba, c);
  }

  lemma LinkSimilarLinks(view: View, i: nat, j: nat, score: real)
    requires i < |view| && j < |view|
    ensures var next := LinkSimilar(view, i, j, score); LinksGrow(view, next) && view[j].id in next[i].links
  {
    hide Connect, OrderedEvents;
    var next := Connect(view, i, j, SimilarTo, SimilarTo, score);
    ConnectLinks(view, i, j, SimilarTo, SimilarTo, score);
    ConnectLinks(next, i, j, Precedes, Follows, 1.0);
    ConnectLinks(next, j, i, Precedes, Follows, 1.0);
  }

  lemma {:induction false} LinkAllLinks(view: View, i: nat, best: seq<nat>, scores: View, similarity: Score)
    requires i < |view| && |scores| == |view| && InRange(best, |view|)
    ensures var last := LinkAll(view, i, best, scores, similarity);
      LinksGrow(view, last) && forall p :: 0 <= p < |best| ==> view[best[p]].id in last[i].links
    decreases |best|
  {
    hide LinkSimilar;
    if best != [] {
      var next := LinkSimilar(view, i, best[0], similarity(scores[i], scores[best[0]]));
      LinkSimilarLinks(view, i, best[0], similarity(scores[i], scores[best[0]]));
      LinkAllLinks(next, i, best[1..], scores, similarity);
      assert forall p :: 0 < p < |best| ==> best[p] == best[1..][p - 1];
    }
  }

  /** One of the listed positions holds this id. */
  ghost predicate NamesOne(view: View, best: seq<nat>, id: string)
    requires InRange(best, |view|)
  {
    exists p :: 0 <= p < |best| && view[best[p]].id == id
  }

  lemma NamesFirst(view: View, best: seq<nat>, id: string)
    requires InRange(best, |view|) && best != []
    ensures NamesOne(view, best, id) <==> id == view[best[0]].id || NamesOne(view, best[1..], id)
  {
    if p :| 0 <= p < |best| && view[best[p]].id == id {
      assert p > 0 ==> best[1..][p - 1] == best[p];
    }
    if p :| 0 <= p < |best[1..]| && view[best[1..][p]].id == id {
      assert best[p + 1] == best[1..][p];
    }
  }

  lemma {:induction false} JoinIdsFacts(linked: seq<string>, view: View, best: seq<nat>)
    requires Distinct(linked) && InRange(best, |view|)
    ensures Distinct(JoinIds(linked, view, best))
    ensures forall id :: id in JoinIds(linked, view, best) <==> id in linked || NamesOne(view, best, id)
    decreases |best|
  {
    if best != [] {
      var id := view[best[0]].id;
      var more := if id in linked then linked else linked + [id];
      JoinIdsFacts(more, view, best[1..]);
      forall x ensures NamesOne(view, best, x) <==> x == id || NamesOne(view, best[1..], x) {
        NamesFirst(view, best, x);
      }
    }
  }

  lemma GrowTransitive(a: View, b: View, c: View, i: nat)
    requires i < |a|
    ensures LinksGrow(a, a) && (LinksGrow(a, b) && LinksGrow(b, c) ==> LinksGrow(a, c))
    ensures LinksGrow(a, b) ==> |a| == |b| && forall k :: 0 <= k < |a| ==> a[k].id == b[k].id
    ensures LinksGrow(a, b) && LinksGrow(b, c) ==> forall id :: id in b[i].links ==> id in c[i].links
  {
  }

  lemma TemporalLinks(view: View, i: nat)
    requires UniqueIds(view) && i < |view|
    ensures LinksGrow(view, LinkTemporal(view, i)) && Distinct(TemporalIds(view, i))
    ensures forall id :: id in TemporalIds(view, i) ==> id in LinkTemporal(view, i)[i].links
  {
    hide Connect, Comparable, LinksGrow;
    var older, newer := LatestOlder(view, i, |view|), EarliestNewer(view, i, |view|);
    var next := if older >= 0 then Connect(view, older, i, Precedes, Follows, 1.0) else view;
    GrowTransitive(view, view, view, i);
    if older >= 0 {
      ConnectLinks(view, older, i, Precedes, Follows, 1.0);
    }
    GrowTransitive(view, view, next, i);
    if newer >= 0 {
      ConnectLinks(next, i, newer, Precedes, Follows, 1.0);
      GrowTransitive(view, next, LinkTemporal(view, i), i);
    }
  }

  /** The reported ids are links of the record after the pass, each reported once. */
  lemma ReportedAreLinked(view: View, i: nat, similarity: Score, threshold: real, k: nat)
    requires UniqueIds(view) && i < |view|
    ensures Distinct(LinkedIds(view, i, similarity, threshold, k))
    ensures forall id :: id in LinkedIds(view, i, similarity, threshold, k) ==>
      id in LinkRelated(view, i, similarity, threshold, k)[i].links
  {
    hide LinkTemporal, TemporalIds, Best, LinkAll, JoinIds, Distinct, UniqueIds;
    var timed := LinkTemporal(view, i);
    TemporalLinks(view, i);
    var best := Best(timed, i, similarity, threshold, k);
    BestInRange(timed, i, similarity, threshold, k);
    JoinIdsFacts(TemporalIds(view, i), timed, best);
    LinkAllLinks(timed, i, best, timed, similarity);
  }
}
