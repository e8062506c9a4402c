/** What temporal links guarantee over every run of additions and link passes
    (core/evolve/memory_ops.py). */
module TimelineRuns {
  import opened MemoryStore
  import opened Timeline

  // ---- what linking leaves alone, and what it adds ----

  ghost predicate SameButEdges(a: View, b: View) {
    |a| == |b| && forall i :: 0 <= i < |a| ==> b[i] == a[i].(links := b[i].links, relations := b[i].relations)
  }

  lemma AddRelationAdds(r: Rec, target: string, kind: RelationType, c: real, t: string, k: RelationType)
    ensures HasRelation(AddRelation(r, target, kind, c), t, k) <==> HasRelation(r, t, k) || (t == target && k == kind)
  {
    var n := AddRelation(r, target, kind, c);
    if HasRelation(r, t, k) {
      var x :| 0 <= x < |r.relations| && r.relations[x].target == t && r.relations[x].kind == k;
      assert n.relations[x] == r.relations[x];
    }
    if !HasRelation(r, target, kind) {
      assert n.relations[|r.relations|] == Relation(target, kind, c);
    }
  }

  lemma LinkKeeps(r: Rec, id: string, t: string, k: RelationType)
    ensures HasRelation(LinkTo(r, id), t, k) <==> HasRelation(r, t, k)
  {
  }

  lemma ConnectAdds(view: View, a: nat, b: nat, ab: RelationType, ba: RelationType, c: real, i: nat, t: string, k: RelationType)
    requires a < |view| && b < |view| && a != b && i < |view|
    ensures var next := Connect(view, a, b, ab, ba, c);
      && SameButEdges(view, next)
      && (HasRelation(next[i], t, k) <==>
            HasRelation(view[i], t, k) || (i == a && t == view[b].id && k == ab) || (i == b && t == view[a].id && k == ba))
  {
    hide HasRelation;
    LinkKeeps(view[a], view[b].id, t, k);
    LinkKeeps(view[b], view[a].id, t, k);
    AddRelationAdds(LinkTo(view[a], view[b].id), view[b].id, ab, c, t, k);
    AddRelationAdds(LinkTo(view[b], view[a].id), view[a].id, ba, c, t, k);
  }

  ghost predicate Earlier(a: Rec, b: Rec) {
    a.firstObserved.Some? && b.firstObserved.Some? && a.firstObserved.value < b.firstObserved.value
  }

  /** precedes goes strictly forward in time, follows is its exact converse, and edges name records of the store. */
  ghost predicate Sound(view: View) {
    && UniqueIds(view)
    && (forall i, j :: 0 <= i < |view| && 0 <= j < |view| && HasRelation(view[i], view[j].id, Precedes) ==>
          Earlier(view[i], view[j]) && HasRelation(view[j], view[i].id, Follows))
    && (forall i, j :: 0 <= i < |view| && 0 <= j < |view| && HasRelation(view[i], view[j].id, Follows) ==>
          HasRelation(view[j], view[i].id, Precedes))
    && (forall i, t, k :: 0 <= i < |view| && HasRelation(view[i], t, k) ==> IndexOf(view, t) >= 0)
  }

  lemma SameIndex(a: View, b: View, id: string)
    requires SameButEdges(a, b) && UniqueIds(a)
    ensures UniqueIds(b) && IndexOf(b, id) == IndexOf(a, id)
  {
    if IndexOf(a, id) >= 0 {
      assert b[IndexOf(a, id)].id == id;
    }
    if IndexOf(b, id) >= 0 {
      assert a[IndexOf(b, id)].id == id;
    }
  }

  lemma ConnectSound(view: View, a: nat, b: nat, ab: RelationType, ba: RelationType, c: real)
    requires Sound(view) && a < |view| && b < |view| && a != b
    requires (ab == Precedes && ba == Follows && Earlier(view[a], view[b])) || (ab == SimilarTo && ba == SimilarTo)
    ensures Sound(Connect(view, a, b, ab, ba, c)) && SameButEdges(view, Connect(view, a, b, ab, ba, c))
  {
    hide HasRelation, Connect, IndexOf;
    var next := Connect(view, a, b, ab, ba, c);
    ConnectAdds(view, a, b, ab, ba, c, a, "", SimilarTo);
    SameIndex(view, next, "");
    forall i, j | 0 <= i < |view| && 0 <= j < |view|
      ensures HasRelation(next[i], next[j].id, Precedes) ==> Earlier(next[i], next[j]) && HasRelation(next[j], next[i].id, Follows)
      ensures HasRelation(next[i], next[j].id, Follows) ==> HasRelation(next[j], next[i].id, Precedes)
    {
      ConnectAdds(view, a, b, ab, ba, c, i, view[j].id, Precedes);
      ConnectAdds(view, a, b, ab, ba, c, j, view[i].id, Follows);
      ConnectAdds(view, a, b, ab, ba, c, i, view[j].id, Follows);
      ConnectAdds(view, a, b, ab, ba, c, j, view[i].id, Precedes);
    }
    forall i, t, k | 0 <= i < |next| && HasRelation(next[i], t, k) ensures IndexOf(next, t) >= 0 {
      ConnectAdds(view, a, b, ab, ba, c, i, t, k);
      SameIndex(view, next, t);
      IndexOfIs(view, a);
      IndexOfIs(view, b);
    }
  }

  /** Whatever was related stays related. */
  ghost predicate KeepsEdges(a: View, b: View) {
    && SameButEdges(a, b)
    && forall i, t, k :: 0 <= i < |a| && HasRelation(a[i], t, k) ==> HasRelation(b[i], t, k)
  }

  lemma ConnectKeeps(view: View, a: nat, b: nat, ab: RelationType, ba: RelationType, c: real)
    requires a < |view| && b < |view| && a != b
    ensures KeepsEdges(view, Connect(view, a, b, ab, ba, c))
  {
    hide HasRelation, Connect;
    ConnectAdds(view, a, b, ab, ba, c, a, "", SimilarTo);
    forall i, t, k | 0 <= i < |view| && HasRelation(view[i], t, k) ensures HasRelation(Connect(view, a, b, ab, ba, c)[i], t, k) {
      ConnectAdds(view, a, b, ab, ba, c, i, t, k);
    }
  }

  lemma KeepsTransitive(a: View, b: View, c: View)
    requires KeepsEdges(a, b) && KeepsEdges(b, c)
    ensures KeepsEdges(a, c)
  {
    hide HasRelation;
  }

  lemma LinkTemporalSound(view: View, i: nat)
    requires Sound(view) && i < |view|
    ensures Sound(LinkTemporal(view, i)) && KeepsEdges(view, LinkTemporal(view, i))
  {
    hide HasRelation, Connect, IndexOf, Sound;
    var older, newer := LatestOlder(view, i, |view|), EarliestNewer(view, i, |view|);
    var next := if older >= 0 then Connect(view, older, i, Precedes, Follows, 1.0) else view;
    if older >= 0 {
      ConnectSound(view, older, i, Precedes, Follows, 1.0);
      ConnectKeeps(view, older, i, Precedes, Follows, 1.0);
    }
    if newer >= 0 {
      ConnectSound(next, i, newer, Precedes, Follows, 1.0);
      ConnectKeeps(next, i, newer, Precedes, Follows, 1.0);
      KeepsTransitive(view, next, Connect(next, i, newer, Precedes, Follows, 1.0));
    }
  }

  lemma LinkSimilarSound(view: View, i: nat, j: nat, score: real)
    requires Sound(view) && i < |view| && j < |view| && i != j
    ensures Sound(LinkSimilar(view, i, j, score)) && KeepsEdges(view, LinkSimilar(view, i, j, score))
  {
    hide HasRelation, Connect, IndexOf, Sound, SharesAsset;
    var next := Connect(view, i, j, SimilarTo, SimilarTo, score);
    ConnectSound(view, i, j, SimilarTo, SimilarTo, score);
    ConnectKeeps(view, i, j, SimilarTo, SimilarTo, score);
    if OrderedEvents(view[i], view[j]) {
      if view[i].firstObserved.value < view[j].firstObserved.value {
        ConnectSound(next, i, j, Precedes, Follows, 1.0);
        ConnectKeeps(next, i, j, Precedes, Follows, 1.0);
      } else {
        ConnectSound(next, j, i, Precedes, Follows, 1.0);
        ConnectKeeps(next, j, i, Precedes, Follows, 1.0);
      }
      KeepsTransitive(view, next, LinkSimilar(view, i, j, score));
    }
  }

  lemma {:induction false} LinkAllSound(view: View, i: nat, best: seq<nat>, scores: View, similarity: Score)
    requires Sound(view) && i < |view| && |scores| == |view| && InRange(best, |view|)
    requires forall p :: 0 <= p < |best| ==> best[p] != i
    ensures Sound(LinkAll(view, i, best, scores, similarity)) && KeepsEdges(view, LinkAll(view, i, best, scores, similarity))
    decreases |best|
  {
    hide HasRelation, LinkSimilar, Sound;
    if best != [] {
      var next := LinkSimilar(view, i, best[0], similarity(scores[i], scores[best[0]]));
      LinkSimilarSound(view, i, best[0], similarity(scores[i], scores[best[0]]));
      LinkAllSound(next, i, best[1..], scores, similarity);
      KeepsTransitive(view, next, LinkAll(next, i, best[1..], scores, similarity));
    }
  }

  lemma LinkRelatedSound(view: View, i: nat, similarity: Score, threshold: real, k: nat)
    requires Sound(view) && i < |view|
    ensures Sound(LinkRelated(view, i, similarity, threshold, k))
    ensures KeepsEdges(LinkTemporal(view, i), LinkRelated(view, i, similarity, threshold, k))
    ensures KeepsEdges(view, LinkRelated(view, i, similarity, threshold, k))
  {
    hide HasRelation, LinkTemporal, LinkAll, Best, Sound;
    var timed := LinkTemporal(view, i);
    LinkTemporalSound(view, i);
    BestInRange(timed, i, similarity, threshold, k);
    LinkAllSound(timed, i, Best(timed, i, similarity, threshold, k), timed, similarity);
    KeepsTransitive(view, timed, LinkRelated(view, i, similarity, threshold, k));
  }

  // ---- runs ----

  datatype Op = AddOp(rec: Rec) | LinkOp(id: string)

  datatype Linker = Linker(similarity: Score, threshold: real, k: nat)

  function Apply(view: View, op: Op, l: Linker): View {
    match op
    case AddOp(r) => (match Added(view, r) case Ok(longer) => longer case Err(_) => view)
    case LinkOp(id) =>
      var i := IndexOf(view, id);
      if i < 0 then view else LinkRelated(view, i, l.similarity, l.threshold, l.k)
  }

  function Run(ops: seq<Op>, l: Linker): View {
    if ops == [] then [] else Apply(Run(ops[..|ops| - 1], l), ops[|ops| - 1], l)
  }

  ghost predicate AddsUnrelated(ops: seq<Op>) {
    forall n :: 0 <= n < |ops| && ops[n].AddOp? ==> ops[n].rec.relations == []
  }

  lemma NoRelations(r: Rec)
    requires r.relations == []
    ensures forall t, k :: !HasRelation(r, t, k)
  {
  }

  lemma AddSound(view: View, r: Rec)
    requires Sound(view) && r.relations == [] && IndexOf(view, r.id) == -1
    ensures Sound(view + [r])
  {
    var next := view + [r];
    hide HasRelation, Earlier;
    AppendUnique(view, r);
    NoRelations(r);
    forall i, t, k | 0 <= i < |next| && HasRelation(next[i], t, k) ensures IndexOf(next, t) >= 0 {
      assert HasRelation(view[i], t, k);
      assert next[IndexOf(view, t)].id == t;
    }
  }

  lemma EmptySound()
    ensures Sound([])
  {
  }

  /** Over every run, whatever is added and linked in whatever order, precedes edges go strictly forward
      in time and each has its follows edge. */
  lemma {:induction false} TimelineIsSound(ops: seq<Op>, l: Linker)
    requires AddsUnrelated(ops)
    ensures Sound(Run(ops, l))
  {
    hide LinkRelated, HasRelation, IndexOf, Sound;
    if ops == [] {
      EmptySound();
    } else {
      var init, op := ops[..|ops| - 1], ops[|ops| - 1];
      TimelineIsSound(init, l);
      var view := Run(init, l);
      match op
      case AddOp(r) =>
        if Added(view, r).Ok? {
          AddSound(view, r);
        }
      case LinkOp(id) =>
        if IndexOf(view, id) >= 0 {
          LinkRelatedSound(view, IndexOf(view, id), l.similarity, l.threshold, l.k);
        }
    }
  }

  /** So the precedes relation has no cycle: along any path of edges the observation times strictly rise. */
  lemma {:induction false} PathsGoForward(view: View, path: seq<nat>)
    requires Sound(view) && |path| >= 2
    requires forall p :: 0 <= p < |path| ==> path[p] < |view|
    requires forall p :: 0 <= p < |path| - 1 ==> HasRelation(view[path[p]], view[path[p + 1]].id, Precedes)
    ensures Earlier(view[path[0]], view[path[|path| - 1]]) && path[0] != path[|path| - 1]
  {
    assert HasRelation(view[path[0]], view[path[1]].id, Precedes);
    if |path| > 2 {
      var rest := path[1..];
      forall p | 0 <= p < |rest| - 1 ensures HasRelation(view[rest[p]], view[rest[p + 1]].id, Precedes) {
        assert rest[p] == path[p + 1] && rest[p + 1] == path[p + 2];
      }
      PathsGoForward(view, rest);
    }
  }

  // ---- completeness on one asset ----

  /** A live event of the asset. */
  predicate IsEventOf(r: Rec, asset: string) {
    IsActive(r) && r.tier == Episodic && r.firstObserved.Some? && asset in r.assets
  }

  ghost predicate EventsOf(view: View, asset: string) {
    && (forall i :: 0 <= i < |view| ==> IsEventOf(view[i], asset))
    && (forall i, j :: 0 <= i < j < |view| ==> view[i].firstObserved != view[j].firstObserved)
  }

  /** j comes right after i in time: nothing lies between them. */
  ghost predicate Adjacent(view: View, i: nat, j: nat) {
    && i < |view| && j < |view| && Earlier(view[i], view[j])
    && forall m :: 0 <= m < |view| ==> !(Earlier(view[i], view[m]) && Earlier(view[m], view[j]))
  }

  ghost predicate Joined(view: View, i: nat, j: nat) {
    && i < |view| && j < |view|
    && HasRelation(view[i], view[j].id, Precedes) && HasRelation(view[j], view[i].id, Follows)
  }

  lemma EventsCompare(view: View, asset: string, i: nat, j: nat)
    requires EventsOf(view, asset) && UniqueIds(view) && i < |view| && j < |view| && i != j
    ensures Comparable(view, i, j)
    ensures IsOlder(view, i, j) <==> Earlier(view[j], view[i])
    ensures IsNewer(view, i, j) <==> Earlier(view[i], view[j])
  {
    assert IsEventOf(view[i], asset) && IsEventOf(view[j], asset);
    var k :| 0 <= k < |view[j].assets| && view[j].assets[k] == asset;
    assert SharesAsset(view[j], view[i]);
  }

  /** j is the one event right after i among those comparable to i, and i the one right before j among those
      comparable to j. Nothing is asked of the other records: other tiers, other assets, retired ones. */
  ghost predicate Consecutive(view: View, i: nat, j: nat) {
    && i < |view| && j < |view| && IsNewer(view, i, j) && IsOlder(view, j, i)
    && (forall m :: 0 <= m < |view| && m != j && IsNewer(view, i, m) ==> view[m].firstObserved.value > view[j].firstObserved.value)
    && (forall m :: 0 <= m < |view| && m != i && IsOlder(view, j, m) ==> view[m].firstObserved.value < view[i].firstObserved.value)
  }

  lemma NewerJoins(view: View, i: nat)
    requires i < |view| && EarliestNewer(view, i, |view|) >= 0
    ensures Joined(LinkTemporal(view, i), i, EarliestNewer(view, i, |view|))
  {
    hide HasRelation, Connect;
    var older, newer := LatestOlder(view, i, |view|), EarliestNewer(view, i, |view|);
    var next := if older >= 0 then Connect(view, older, i, Precedes, Follows, 1.0) else view;
    if older >= 0 {
      ConnectKeeps(view, older, i, Precedes, Follows, 1.0);
    }
    ConnectAdds(next, i, newer, Precedes, Follows, 1.0, i, next[newer].id, Precedes);
    ConnectAdds(next, i, newer, Precedes, Follows, 1.0, newer, next[i].id, Follows);
  }

  lemma OlderJoins(view: View, j: nat)
    requires j < |view| && LatestOlder(view, j, |view|) >= 0
    ensures Joined(LinkTemporal(view, j), LatestOlder(view, j, |view|), j)
  {
    hide HasRelation, Connect;
    var older, newer := LatestOlder(view, j, |view|), EarliestNewer(view, j, |view|);
    var next := Connect(view, older, j, Precedes, Follows, 1.0);
    ConnectAdds(view, older, j, Precedes, Follows, 1.0, older, view[j].id, Precedes);
    ConnectAdds(view, older, j, Precedes, Follows, 1.0, j, view[older].id, Follows);
    if newer >= 0 {
      ConnectKeeps(next, j, newer, Precedes, Follows, 1.0);
    }
  }

  /** A link pass joins a record to both of its time neighbours. */
  lemma LinkJoins(view: View, i: nat, j: nat)
    requires Consecutive(view, i, j)
    ensures Joined(LinkTemporal(view, i), i, j) && Joined(LinkTemporal(view, j), i, j)
  {
    hide Comparable, Joined, LinkTemporal, EarliestNewer, LatestOlder;
    assert EarliestNewer(view, i, |view|) == j && LatestOlder(view, j, |view|) == i;
    NewerJoins(view, i);
    OlderJoins(view, j);
  }

  /** The records of an earlier view are the first records of a later one, with at least their edges. */
  ghost predicate Grows(a: View, b: View) {
    && |a| <= |b|
    && (forall i :: 0 <= i < |a| ==> b[i] == a[i].(links := b[i].links, relations := b[i].relations))
    && forall i, t, k :: 0 <= i < |a| && HasRelation(a[i], t, k) ==> HasRelation(b[i], t, k)
  }

  lemma ApplyGrows(view: View, op: Op, l: Linker)
    requires Sound(view)
    ensures Grows(view, Apply(view, op, l))
  {
    hide HasRelation, LinkRelated, Sound;
    if op.LinkOp? && IndexOf(view, op.id) >= 0 {
      LinkRelatedSound(view, IndexOf(view, op.id), l.similarity, l.threshold, l.k);
    }
  }

  lemma GrowsTransitive(a: View, b: View, c: View)
    requires Grows(a, b) && Grows(b, c)
    ensures Grows(a, c)
  {
    hide HasRelation;
  }

  lemma {:induction false} RunGrows(ops: seq<Op>, l: Linker, m: nat)
    requires AddsUnrelated(ops) && m <= |ops|
    ensures Grows(Run(ops[..m], l), Run(ops, l))
  {
    hide HasRelation, Apply;
    if m == |ops| {
      assert ops[..m] == ops;
    } else {
      var init := ops[..|ops| - 1];
      RunGrows(init, l, m);
      assert init[..m] == ops[..m];
      TimelineIsSound(init, l);
      ApplyGrows(Run(init, l), ops[|ops| - 1], l);
      GrowsTransitive(Run(ops[..m], l), Run(init, l), Run(ops, l));
    }
  }

  lemma SameComparisons(a: View, b: View, m: nat, n: nat)
    requires Grows(a, b) && m < |a| && n < |a|
    ensures IsNewer(a, m, n) == IsNewer(b, m, n) && IsOlder(a, m, n) == IsOlder(b, m, n)
  {
    hide HasRelation;
  }

  lemma EarlierViewKeepsConsecutive(a: View, b: View, i: nat, j: nat)
    requires Grows(a, b) && Consecutive(b, i, j) && i < |a| && j < |a|
    ensures Consecutive(a, i, j)
  {
    hide HasRelation, SharesAsset;
    forall m, n | 0 <= m < |a| && 0 <= n < |a|
      ensures IsNewer(a, m, n) == IsNewer(b, m, n) && IsOlder(a, m, n) == IsOlder(b, m, n)
    {
      SameComparisons(a, b, m, n);
    }
    assert forall m :: 0 <= m < |a| ==> a[m].firstObserved == b[m].firstObserved;
  }

  /** The record is linked at least once while it is in the store. */
  ghost predicate LinkedOnce(ops: seq<Op>, l: Linker, i: nat)
    requires i < |Run(ops, l)|
  {
    exists m :: 0 <= m < |ops| && ops[m] == LinkOp(Run(ops, l)[i].id) && i < |Run(ops[..m], l)|
  }

  lemma EdgesKeepJoined(a: View, b: View, i: nat, j: nat)
    requires KeepsEdges(a, b) && Joined(a, i, j)
    ensures Joined(b, i, j)
  {
    hide HasRelation;
  }

  lemma StepIs(ops: seq<Op>, l: Linker, m: nat)
    requires m < |ops|
    ensures Run(ops[..m + 1], l) == Apply(Run(ops[..m], l), ops[m], l)
  {
    hide Apply;
    assert ops[..m + 1][..m] == ops[..m];
  }

  /** The link operation on the later of the two records joins them. */
  lemma JoinedAtLink(ops: seq<Op>, l: Linker, i: nat, j: nat, m: nat)
    requires AddsUnrelated(ops) && Consecutive(Run(ops, l), i, j)
    requires var last := if i < j then j else i;
      m < |ops| && last < |Run(ops[..m], l)| && ops[m] == LinkOp(Run(ops, l)[last].id)
    ensures i < |Run(ops[..m + 1], l)| && j < |Run(ops[..m + 1], l)| && Joined(Run(ops[..m + 1], l), i, j)
  {
    hide HasRelation, Run, Consecutive, Joined, KeepsEdges, LinkTemporal, LinkRelated;
    var last := if i < j then j else i;
    var before, final := Run(ops[..m], l), Run(ops, l);
    RunGrows(ops, l, m);
    EarlierViewKeepsConsecutive(before, final, i, j);
    TimelineIsSound(ops[..m], l);
    LinkJoins(before, i, j);
    IndexOfIs(before, last);
    LinkRelatedSound(before, last, l.similarity, l.threshold, l.k);
    StepIs(ops, l, m);
    EdgesKeepJoined(LinkTemporal(before, last), LinkRelated(before, last, l.similarity, l.threshold, l.k), i, j);
  }

  /** Timeline completeness: whatever else was added and linked, in whatever order and interleaving, two consecutive
      events end up joined in both directions once the later added of them has been linked. */
  lemma TimelineIsComplete(ops: seq<Op>, l: Linker, i: nat, j: nat)
    requires AddsUnrelated(ops) && Consecutive(Run(ops, l), i, j)
    requires LinkedOnce(ops, l, if i < j then j else i)
    ensures Joined(Run(ops, l), i, j)
  {
    hide HasRelation, Run;
    var last := if i < j then j else i;
    var m :| 0 <= m < |ops| && ops[m] == LinkOp(Run(ops, l)[last].id) && last < |Run(ops[..m], l)|;
    JoinedAtLink(ops, l, i, j, m);
    RunGrows(ops, l, m + 1);
  }

  lemma AdjacentAreConsecutive(view: View, asset: string, i: nat, j: nat)
    requires EventsOf(view, asset) && UniqueIds(view) && Adjacent(view, i, j)
    ensures Consecutive(view, i, j)
  {
    hide HasRelation, Comparable;
    forall m | 0 <= m < |view| && m != i
      ensures IsNewer(view, i, m) <==> Earlier(view[i], view[m])
    {
      EventsCompare(view, asset, i, m);
    }
    forall m | 0 <= m < |view| && m != j
      ensures IsOlder(view, j, m) <==> Earlier(view[m], view[j])
    {
      EventsCompare(view, asset, j, m);
    }
  }

  /** In a store of live events of one asset with distinct times, all of them linked, every time-adjacent pair ends up
      joined. */
  lemma AssetTimelineIsComplete(ops: seq<Op>, l: Linker, asset: string, i: nat, j: nat)
    requires AddsUnrelated(ops) && forall k :: 0 <= k < |Run(ops, l)| ==> LinkedOnce(ops, l, k)
    requires EventsOf(Run(ops, l), asset) && Adjacent(Run(ops, l), i, j)
    ensures Joined(Run(ops, l), i, j)
  {
    hide HasRelation, Run, EventsOf, Consecutive, LinkedOnce, Joined;
    TimelineIsSound(ops, l);
    AdjacentAreConsecutive(Run(ops, l), asset, i, j);
    TimelineIsComplete(ops, l, i, j);
  }
}
