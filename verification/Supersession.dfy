/** Ingest-time conflict resolution: a later session retires the earlier one that is its mutual
    nearest neighbour (core/eval/longmemeval_memevo.py, core/evolve/memory_ops.py). */
module Supersession {
  import opened Basics
  import opened Sorting
  import opened MemoryStore

  // ---- nearest neighbours ----

  /** The sessions of one item: ids, term sets and dates, one of each per session. */
  datatype Item = Item(sids: seq<string>, terms: seq<set<string>>, dates: seq<int>)

  ghost predicate WellFormed(item: Item) {
    |item.terms| == |item.sids| && |item.dates| == |item.sids|
  }

  /** Among the first n sessions, the first most similar one to session i, or -1. */
  function Nearest(terms: seq<set<string>>, i: nat, n: nat): (int, real)
    requires i < |terms| && n <= |terms|
  {
    if n == 0 then (-1, -1.0)
    else
      var (best, score) := Nearest(terms, i, n - 1);
      if n - 1 == i then (best, score)
      else
        var s := Jaccard(terms[i], terms[n - 1]);
        if s > score then (n - 1, s) else (best, score)
  }

  function Partner(item: Item, i: nat): int
    requires WellFormed(item) && i < |item.sids|
  {
    Nearest(item.terms, i, |item.terms|).0
  }

  function Closeness(item: Item, i: nat): real
    requires WellFormed(item) && i < |item.sids|
  {
    Nearest(item.terms, i, |item.terms|).1
  }

  lemma {:induction false} NearestFacts(terms: seq<set<string>>, i: nat, n: nat)
    requires i < |terms| && n <= |terms|
    ensures var (best, score) := Nearest(terms, i, n);
      && -1 <= best < n && best != i
      && (best == -1 ==> score == -1.0)
      && (best >= 0 ==> score == Jaccard(terms[i], terms[best]))
      && (forall j :: 0 <= j < n && j != i ==> Jaccard(terms[i], terms[j]) <= score)
      && (forall j :: 0 <= j < n && j != i && j < best ==> Jaccard(terms[i], terms[j]) < score)
  {
    hide Jaccard;
    if n > 0 {
      NearestFacts(terms, i, n - 1);
      JaccardIsShare(terms[i], terms[n - 1]);
    }
  }

  method FindNearest(terms: seq<set<string>>) returns (nn: seq<(int, real)>)
    ensures |nn| == |terms| && forall i :: 0 <= i < |terms| ==> nn[i] == Nearest(terms, i, |terms|)
  {
    hide Jaccard;
    nn := [];
    for i := 0 to |terms|
      invariant |nn| == i && forall k :: 0 <= k < i ==> nn[k] == Nearest(terms, k, |terms|)
    {
      var best, score := -1, -1.0;
      for j := 0 to |terms|
        invariant (best, score) == Nearest(terms, i, j)
      {
        if i != j {
          var s := Jaccard(terms[i], terms[j]);
          if s > score {
            score, best := s, j;
          }
        }
      }
      nn := nn + [(best, score)];
    }
  }

  // ---- one supersession ----

  /** Session i retires its partner: mutual nearest neighbours, close enough, the partner strictly older. */
  predicate Fires(item: Item, tau: real, i: nat)
    requires WellFormed(item) && i < |item.sids|
  {
    var j := Partner(item, i);
    && 0 <= j < |item.sids| && Closeness(item, i) >= tau
    && Partner(item, j) == i && item.dates[j] < item.dates[i]
  }

  function MemoryId(item: Item, i: nat): string
    requires i < |item.sids|
  {
    "m-" + item.sids[i]
  }

  function Retired(r: Rec, newer: string): Rec {
    Quarantine(r.(supersededBy := Some(newer)), "superseded")
  }

  /** supersede() for a candidate that is in the store at position c. */
  function Superseded(view: View, prior: int, c: nat): View
    requires c < |view| && -1 <= prior < |view|
  {
    if prior < 0 || view[prior].quarantined then view
    else
      var linked := view[c := LinkTo(view[c], view[prior].id)];
      linked[prior := Retired(linked[prior], view[c].id)]
  }

  method Supersede(store: Store, prior: int, c: nat)
    requires store.Valid() && c < |store.records| && -1 <= prior < |store.records|
    modifies store.records
    ensures store.Valid() && store.View() == Superseded(old(store.View()), prior, c)
  {
    if prior < 0 || store.records[prior].quarantined {
      return;
    }
    var candidate := store.records[c];
    store.LinkAt(c, store.records[prior].id);
    store.SupersededAt(prior, candidate.id);
    store.QuarantineAt(prior, "superseded");
  }

  /** supersede() by ids: a candidate that is not in the store is added first, at full strength. */
  function SupersededBy(view: View, oldId: string, candidate: Rec): View {
    var prior, at := IndexOf(view, oldId), IndexOf(view, candidate.id);
    if at >= 0 then Superseded(view, prior, at)
    else Superseded(view + [candidate.(strength := 1.0)], prior, |view|)
  }

  /** A candidate whose id is in the store stands for the record stored under it. */
  method SupersedeBy(store: Store, oldId: string, candidate: Rec) returns (held: string)
    requires store.Valid()
    modifies store, store.records
    ensures store.Valid() && store.View() == SupersededBy(old(store.View()), oldId, candidate) && held == candidate.id
  {
    hide IndexOf, UniqueIds, Superseded;
    var prior := store.Get(oldId);
    var at := store.Get(candidate.id);
    if at < 0 {
      at := |store.records|;
      store.Append(candidate.(strength := 1.0));
    }
    Supersede(store, prior, at);
    held := candidate.id;
  }

  /** Superseding keeps every id in its place, retires the prior if it is live, and links the newer record to it. */
  lemma SupersededFacts(view: View, prior: int, c: nat)
    requires UniqueIds(view) && c < |view| && -1 <= prior < |view|
    ensures var after := Superseded(view, prior, c);
      && |after| == |view| && UniqueIds(after) && after[c].id == view[c].id
      && (prior != c ==> after[c].quarantined == view[c].quarantined) && (prior < 0 ==> after == view)
      && (prior >= 0 && !view[prior].quarantined ==>
            after[prior].quarantined && after[prior].supersededBy == Some(view[c].id) && view[prior].id in after[c].links)
      && (prior >= 0 && view[prior].quarantined ==> after[prior] == view[prior])
  {
  }

  /** Provenance both ways: a live prior ends up retired in favour of the candidate, and the candidate is in the store,
      as live as before unless it is the prior itself, with a link to it. A retired prior is left as it was, and with a
      missing one nothing happens but the addition. */
  lemma SupersessionIsRecorded(view: View, oldId: string, candidate: Rec)
    requires UniqueIds(view)
    ensures var after := SupersededBy(view, oldId, candidate);
      var prior, at, now := IndexOf(view, oldId), IndexOf(view, candidate.id), IndexOf(after, candidate.id);
      && now >= 0 && |after| >= |view|
      && (oldId != candidate.id ==>
            after[now].quarantined == (if at >= 0 then view[at].quarantined else candidate.quarantined))
      && (prior < 0 ==> after == (if at >= 0 then view else view + [candidate.(strength := 1.0)]))
      && (prior >= 0 && !view[prior].quarantined ==>
            && after[prior].quarantined && after[prior].supersededBy == Some(candidate.id) && oldId in after[now].links)
      && (prior >= 0 && view[prior].quarantined ==> after[prior] == view[prior])
  {
    hide IndexOf, UniqueIds, Superseded, LinkTo;
    var at, prior := IndexOf(view, candidate.id), IndexOf(view, oldId);
    var held := if at >= 0 then view else view + [candidate.(strength := 1.0)];
    var c: nat := if at >= 0 then at else |view|;
    if at < 0 {
      AppendUnique(view, candidate.(strength := 1.0));
    }
    SupersededFacts(held, prior, c);
    IndexOfIs(Superseded(held, prior, c), c);
  }

  /** The whole effect of superseding a live prior by another record: the prior is retired, named after its successor and
      tagged; the successor, at full strength if it is new, gains a link; every other record stays as it was. */
  lemma SupersessionEffect(view: View, oldId: string, candidate: Rec)
    requires UniqueIds(view) && oldId != candidate.id
    requires IndexOf(view, oldId) >= 0 && !view[IndexOf(view, oldId)].quarantined
    ensures var after, prior, at := SupersededBy(view, oldId, candidate), IndexOf(view, oldId), IndexOf(view, candidate.id);
      var now, held := if at >= 0 then at else |view|, if at >= 0 then view[at] else candidate.(strength := 1.0);
      && |after| == |view| + (if at >= 0 then 0 else 1) && prior != now
      && after[prior] == view[prior].(quarantined := true, tags := view[prior].tags + ["quarantine:superseded"],
                                      supersededBy := Some(candidate.id))
      && after[now] == held.(links := if oldId in held.links then held.links else held.links + [oldId])
      && forall i :: 0 <= i < |view| && i != prior && i != now ==> after[i] == view[i]
  {
    hide UniqueIds;
    assert "quarantine:" + "superseded" == "quarantine:superseded";
  }

  // ---- the pass over all sessions ----

  datatype Pass = Pass(view: View, superseded: set<int>, fired: nat)

  function Turn(item: Item, tau: real, p: Pass, i: nat): Pass
    requires WellFormed(item) && i < |item.sids|
  {
    if !Fires(item, tau, i) || Partner(item, i) in p.superseded then p
    else
      var j := Partner(item, i);
      var c, o := IndexOf(p.view, MemoryId(item, i)), IndexOf(p.view, MemoryId(item, j));
      if c < 0 || o < 0 || p.view[o].quarantined then p
      else Pass(Superseded(p.view, o, c), p.superseded + {j}, p.fired + 1)
  }

  function Turns(item: Item, tau: real, view: View, order: seq<nat>): Pass
    requires WellFormed(item) && forall n :: 0 <= n < |order| ==> order[n] < |item.sids|
  {
    if order == [] then Pass(view, {}, 0)
    else Turn(item, tau, Turns(item, tau, view, order[..|order| - 1]), order[|order| - 1])
  }

  function Indices(n: nat): seq<nat> {
    seq(n, i => i)
  }

  function DateOf(item: Item, i: nat): int {
    if i < |item.dates| then item.dates[i] else 0
  }

  /** Temporal ingest order. */
  function IngestOrder(item: Item): seq<nat> {
    Sort(Indices(|item.sids|), (a: nat, b: nat) => DateOf(item, a) <= DateOf(item, b))
  }

  /** A processing order that visits every session once. */
  ghost predicate VisitsAll(item: Item, order: seq<nat>) {
    Distinct(order) && forall i :: i in order <==> 0 <= i < |item.sids|
  }

  lemma IngestVisitsAll(item: Item)
    ensures VisitsAll(item, IngestOrder(item))
    ensures forall n :: 0 <= n < |IngestOrder(item)| ==> IngestOrder(item)[n] < |item.sids|
    ensures forall m, n :: 0 <= m < n < |IngestOrder(item)| ==> DateOf(item, IngestOrder(item)[m]) <= DateOf(item, IngestOrder(item)[n])
  {
    var all := Indices(|item.sids|);
    var le := (a: nat, b: nat) => DateOf(item, a) <= DateOf(item, b);
    SortPermutes(all, le);
    SortMembers(all, le);
    SortSorts(all, le);
    DistinctPermutes(all, IngestOrder(item));
    forall i ensures i in IngestOrder(item) <==> 0 <= i < |item.sids| {
      if 0 <= i < |item.sids| {
        assert all[i] == i;
      }
    }
    forall n | 0 <= n < |IngestOrder(item)| ensures IngestOrder(item)[n] < |item.sids| {
      assert IngestOrder(item)[n] in IngestOrder(item);
    }
  }

  lemma PartnerInRange(item: Item, i: nat)
    requires WellFormed(item) && i < |item.sids|
    ensures -1 <= Partner(item, i) < |item.sids|
  {
    NearestFacts(item.terms, i, |item.terms|);
  }

  lemma TurnIs(item: Item, tau: real, p: Pass, i: nat)
    requires WellFormed(item) && i < |item.sids|
    ensures -1 <= Partner(item, i) < |item.sids|
    ensures var j := Partner(item, i);
      var fires := j >= 0 && Closeness(item, i) >= tau && Partner(item, j) == i && item.dates[j] < item.dates[i] && j !in p.superseded;
      var c, o := IndexOf(p.view, MemoryId(item, i)), if fires then IndexOf(p.view, MemoryId(item, j)) else -1;
      Turn(item, tau, p, i)
      == if c >= 0 && o >= 0 && !p.view[o].quarantined then Pass(Superseded(p.view, o, c), p.superseded + {j}, p.fired + 1) else p
  {
    hide Nearest, Superseded, IndexOf, Partner, Closeness, MemoryId;
    PartnerInRange(item, i);
  }

  /** One session's turn: it may retire its partner. */
  method TakeTurn(store: Store, item: Item, tau: real, nn: seq<(int, real)>, i: nat, visited: set<int>, count: nat)
    returns (superseded: set<int>, fired: nat)
    requires store.Valid() && WellFormed(item) && i < |item.sids|
    requires |nn| == |item.sids| && forall k :: 0 <= k < |nn| ==> nn[k] == (Partner(item, k), Closeness(item, k))
    modifies store.records
    ensures store.Valid()
    ensures Turn(item, tau, Pass(old(store.View()), visited, count), i) == Pass(store.View(), superseded, fired)
  {
    hide Nearest, Superseded, IndexOf, Partner, Closeness, MemoryId, UniqueIds, Fires, Turn;
    superseded, fired := visited, count;
    TurnIs(item, tau, Pass(store.View(), visited, count), i);
    var (j, s) := nn[i];
    PartnerInRange(item, i);
    if j >= 0 && s >= tau && nn[j].0 == i && item.dates[j] < item.dates[i] && j !in superseded {
      var c := store.Get(MemoryId(item, i));
      var o := store.Get(MemoryId(item, j));
      if c >= 0 && o >= 0 && !store.records[o].quarantined {
        Supersede(store, o, c);
        superseded := superseded + {j};
        fired := fired + 1;
      }
    }
  }

  method ApplySupersede(store: Store, item: Item, tau: real) returns (fired: nat)
    requires store.Valid() && WellFormed(item)
    modifies store.records
    ensures store.Valid()
    ensures (forall n :: 0 <= n < |IngestOrder(item)| ==> IngestOrder(item)[n] < |item.sids|)
    ensures Turns(item, tau, old(store.View()), IngestOrder(item)).view == store.View()
    ensures Turns(item, tau, old(store.View()), IngestOrder(item)).fired == fired
  {
    hide Nearest, IngestOrder, Turn;
    var nn := FindNearest(item.terms);
    var order := IngestOrder(item);
    IngestVisitsAll(item);
    ghost var view := store.View();
    var superseded: set<int> := {};
    fired := 0;
    for n := 0 to |order|
      invariant store.Valid()
      invariant Turns(item, tau, view, order[..n]) == Pass(store.View(), superseded, fired)
    {
      assert order[..n + 1][..n] == order[..n];
      superseded, fired := TakeTurn(store, item, tau, nn, order[n], superseded, fired);
    }
    assert order[..|order|] == order;
  }

  // ---- what the pass amounts to, in whatever order it is made ----

  /** Every session has its live record, under its own id. */
  ghost predicate AllLive(item: Item, view: View)
    requires WellFormed(item)
  {
    && UniqueIds(view) && Distinct(item.sids)
    && forall i :: 0 <= i < |item.sids| ==>
         IndexOf(view, MemoryId(item, i)) >= 0 && !view[IndexOf(view, MemoryId(item, i))].quarantined
  }

  lemma MemoryIdsDiffer(item: Item, i: nat, j: nat)
    requires i < |item.sids| && j < |item.sids| && Distinct(item.sids) && i != j
    ensures MemoryId(item, i) != MemoryId(item, j)
  {
    assert MemoryId(item, i)[2..] == item.sids[i] && MemoryId(item, j)[2..] == item.sids[j];
    assert item.sids[i] != item.sids[j] by { if i < j {} else { assert item.sids[j] != item.sids[i]; } }
  }

  /** Session s was retired by its partner, if the partner has been visited. */
  predicate IsRetired(item: Item, tau: real, done: set<nat>, s: nat)
    requires WellFormed(item) && s < |item.sids|
  {
    var i := Partner(item, s);
    0 <= i < |item.sids| && i in done && Fires(item, tau, i) && Partner(item, i) == s
  }

  /** The record of session s once the sessions in done have been visited. */
  function SessionRecord(item: Item, tau: real, done: set<nat>, s: nat, r: Rec): Rec
    requires WellFormed(item) && s < |item.sids|
  {
    if IsRetired(item, tau, done, s) then Retired(r, MemoryId(item, Partner(item, s)))
    else if s in done && Fires(item, tau, s) then LinkTo(r, MemoryId(item, Partner(item, s)))
    else r
  }

  ghost predicate IsSession(item: Item, id: string) {
    exists s :: 0 <= s < |item.sids| && MemoryId(item, s) == id
  }

  /** The store after the sessions in done, described without reference to the order of visits. */
  ghost predicate AfterVisits(item: Item, tau: real, before: View, done: set<nat>, after: View)
    requires WellFormed(item)
  {
    && |after| == |before|
    && (forall k :: 0 <= k < |before| ==> after[k].id == before[k].id)
    && (forall k :: 0 <= k < |before| && !IsSession(item, before[k].id) ==> after[k] == before[k])
    && (forall s :: 0 <= s < |item.sids| ==>
          var k := IndexOf(before, MemoryId(item, s));
          k >= 0 ==> after[k] == SessionRecord(item, tau, done, s, before[k]))
  }

  ghost function FiringAmong(item: Item, tau: real, done: set<nat>): set<nat>
    requires WellFormed(item)
  {
    set i | i in done && i < |item.sids| && Fires(item, tau, i)
  }

  ghost predicate Invariant(item: Item, tau: real, before: View, done: set<nat>, p: Pass)
    requires WellFormed(item)
  {
    && AfterVisits(item, tau, before, done, p.view)
    && (forall j :: j in p.superseded <==> exists i :: i in FiringAmong(item, tau, done) && Partner(item, i) == j)
    && p.fired == |FiringAmong(item, tau, done)|
  }

  /** A firing session and its partner point at each other, so neither takes part in another pair;
      and the newer of the two is never the older of another. */
  lemma PairsAreDisjoint(item: Item, tau: real, i: nat, k: nat)
    requires WellFormed(item) && i < |item.sids| && k < |item.sids| && Fires(item, tau, i) && Fires(item, tau, k)
    ensures Partner(item, i) == Partner(item, k) ==> i == k
    ensures Partner(item, i) != k
  {
    hide Partner;
  }

  lemma SameIds(before: View, after: View, id: string)
    requires UniqueIds(before) && |after| == |before| && forall k :: 0 <= k < |before| ==> after[k].id == before[k].id
    ensures UniqueIds(after) && IndexOf(after, id) == IndexOf(before, id)
  {
    hide IndexOf;
    var a, b := IndexOf(after, id), IndexOf(before, id);
    if a >= 0 { assert before[a].id == id; }
    if b >= 0 { assert after[b].id == id; }
  }

  /** A visit that does not fire changes nobody's description. */
  lemma QuietTurn(item: Item, tau: real, before: View, done: set<nat>, p: Pass, i: nat)
    requires WellFormed(item) && i < |item.sids| && i !in done
    requires Invariant(item, tau, before, done, p) && !Fires(item, tau, i)
    ensures Invariant(item, tau, before, done + {i}, p)
  {
    hide Fires, Partner, IndexOf, MemoryId, Retired, LinkTo;
    assert FiringAmong(item, tau, done + {i}) == FiringAmong(item, tau, done);
    var more := done + {i};
    forall s, r | 0 <= s < |item.sids|
      ensures SessionRecord(item, tau, more, s, r) == SessionRecord(item, tau, done, s, r)
    {
    }
  }

  /** The two records a firing visit changes were still as they started. */
  lemma FiringTurn(item: Item, tau: real, before: View, done: set<nat>, p: Pass, i: nat)
    requires WellFormed(item) && i < |item.sids| && i !in done && AllLive(item, before)
    requires Invariant(item, tau, before, done, p) && Fires(item, tau, i)
    ensures var j := Partner(item, i); var c, o := IndexOf(before, MemoryId(item, i)), IndexOf(before, MemoryId(item, j));
      && c >= 0 && o >= 0 && c != o && IndexOf(p.view, MemoryId(item, i)) == c && IndexOf(p.view, MemoryId(item, j)) == o
      && p.view[c] == before[c] && p.view[o] == before[o] && j !in p.superseded
      && Turn(item, tau, p, i) == Pass(Superseded(p.view, o, c), p.superseded + {j}, p.fired + 1)
  {
    hide Partner, IndexOf, MemoryId, Retired, LinkTo, Superseded;
    var j := Partner(item, i);
    SameIds(before, p.view, MemoryId(item, i));
    SameIds(before, p.view, MemoryId(item, j));
    MemoryIdsDiffer(item, i, j);
    forall k | k in FiringAmong(item, tau, done) ensures Partner(item, k) != j && Partner(item, k) != i {
      PairsAreDisjoint(item, tau, i, k);
      PairsAreDisjoint(item, tau, k, i);
    }
    assert !IsRetired(item, tau, done, i);
    assert !IsRetired(item, tau, done, j);
    assert !Fires(item, tau, j);
  }

  lemma SupersededIs(view: View, o: nat, c: nat, k: nat, old': Rec, new': Rec)
    requires o < |view| && c < |view| && o != c && k < |view| && view[o] == old' && view[c] == new' && !old'.quarantined
    ensures |Superseded(view, o, c)| == |view| && Superseded(view, o, c)[k].id == view[k].id
    ensures Superseded(view, o, c)[k] ==
      (if k == o then Retired(old', new'.id) else if k == c then LinkTo(new', old'.id) else view[k])
  {
  }

  lemma PartnerOf(item: Item, tau: real, i: nat) returns (j: nat)
    requires WellFormed(item) && i < |item.sids| && Fires(item, tau, i)
    ensures j == Partner(item, i) && j < |item.sids|
  {
    j := Partner(item, i);
  }

  lemma FiringCounts(item: Item, tau: real, done: set<nat>, i: nat)
    requires WellFormed(item) && i < |item.sids| && i !in done && Fires(item, tau, i)
    ensures FiringAmong(item, tau, done + {i}) == FiringAmong(item, tau, done) + {i}
    ensures |FiringAmong(item, tau, done + {i})| == |FiringAmong(item, tau, done)| + 1
  {
    hide Fires;
  }

  /** Visiting i decides the description of i and its partner only. */
  lemma OneVisit(item: Item, tau: real, done: set<nat>, i: nat, s: nat, r: Rec)
    requires WellFormed(item) && i < |item.sids| && s < |item.sids| && i !in done && Fires(item, tau, i)
    ensures SessionRecord(item, tau, done + {i}, s, r) ==
      (if s == Partner(item, i) then Retired(r, MemoryId(item, i))
       else if s == i then LinkTo(r, MemoryId(item, Partner(item, i)))
       else SessionRecord(item, tau, done, s, r))
  {
    hide Partner, MemoryId, Retired, LinkTo;
  }

  lemma FiringTurnKeeps(item: Item, tau: real, before: View, done: set<nat>, p: Pass, i: nat)
    requires WellFormed(item) && i < |item.sids| && i !in done && AllLive(item, before)
    requires Invariant(item, tau, before, done, p) && Fires(item, tau, i)
    ensures Invariant(item, tau, before, done + {i}, Turn(item, tau, p, i))
  {
    hide Partner, IndexOf, MemoryId, Turn, LinkTo, Retired, Fires;
    var j := PartnerOf(item, tau, i);
    var c, o := IndexOf(before, MemoryId(item, i)), IndexOf(before, MemoryId(item, j));
    FiringTurn(item, tau, before, done, p, i);
    var q := Turn(item, tau, p, i);
    FiringCounts(item, tau, done, i);
    var more := done + {i};
    forall s | 0 <= s < |item.sids|
      ensures var k := IndexOf(before, MemoryId(item, s)); k >= 0 ==> q.view[k] == SessionRecord(item, tau, more, s, before[k])
    {
      var k := IndexOf(before, MemoryId(item, s));
      if k >= 0 {
        OneVisit(item, tau, done, i, s, before[k]);
        if s != i { MemoryIdsDiffer(item, s, i); }
        if s != j { MemoryIdsDiffer(item, s, j); }
        SupersededIs(p.view, o, c, k, before[o], before[c]);
      }
    }
    forall k | 0 <= k < |before|
      ensures q.view[k].id == before[k].id
      ensures !IsSession(item, before[k].id) ==> q.view[k] == before[k]
    {
      assert MemoryId(item, i) == before[c].id && MemoryId(item, j) == before[o].id;
      SupersededIs(p.view, o, c, k, before[o], before[c]);
    }
  }

  ghost function Visited(order: seq<nat>): set<nat> {
    set i | i in order
  }

  lemma VisitedGrows(order: seq<nat>, i: nat)
    ensures Visited(order + [i]) == Visited(order) + {i}
    ensures Distinct(order + [i]) ==> i !in Visited(order) && Distinct(order)
  {
    var longer := order + [i];
    assert longer[|order|] == i;
    assert forall k :: 0 <= k < |order| ==> longer[k] == order[k];
  }

  lemma QuietIs(item: Item, tau: real, p: Pass, i: nat)
    requires WellFormed(item) && i < |item.sids| && !Fires(item, tau, i)
    ensures Turn(item, tau, p, i) == p
  {
  }

  lemma StartInvariant(item: Item, tau: real, view: View)
    requires WellFormed(item) && AllLive(item, view)
    ensures Invariant(item, tau, view, {}, Pass(view, {}, 0))
  {
    hide Fires, Partner, MemoryId, IndexOf;
    assert FiringAmong(item, tau, {}) == {};
  }

  lemma {:induction false} TurnsInvariant(item: Item, tau: real, view: View, order: seq<nat>)
    requires WellFormed(item) && AllLive(item, view) && Distinct(order)
    requires forall n :: 0 <= n < |order| ==> order[n] < |item.sids|
    ensures Invariant(item, tau, view, Visited(order), Turns(item, tau, view, order))
  {
    hide Invariant, AllLive, Turn, Fires;
    if order == [] {
      StartInvariant(item, tau, view);
      assert Visited(order) == {};
    } else {
      var init, i := order[..|order| - 1], order[|order| - 1];
      TurnsInvariant(item, tau, view, init);
      var done, p := Visited(init), Turns(item, tau, view, init);
      VisitedGrows(init, i);
      assert order == init + [i];
      if Fires(item, tau, i) {
        FiringTurnKeeps(item, tau, view, done, p, i);
      } else {
        QuietTurn(item, tau, view, done, p, i);
        QuietIs(item, tau, p, i);
      }
    }
  }

  ghost function AllSessions(item: Item): set<nat> {
    set i | i in Indices(|item.sids|)
  }

  lemma SessionsAre(item: Item, order: seq<nat>)
    requires VisitsAll(item, order)
    ensures Visited(order) == AllSessions(item)
    ensures forall i: nat :: i in AllSessions(item) <==> i < |item.sids|
  {
    var all := Indices(|item.sids|);
    forall i: nat ensures i in all <==> i < |item.sids| {
      if i < |item.sids| {
        assert all[i] == i;
      }
    }
  }

  /** Supersession is a matching. Whatever the order of visits, the outcome is the same: the sessions that
      fire are exactly the newer halves of the close mutual pairs, their number is what is reported, every
      such session retires its partner and stays live itself, and nothing else changes. */
  lemma SupersessionIsMatching(item: Item, tau: real, view: View, order: seq<nat>)
    requires WellFormed(item) && AllLive(item, view) && VisitsAll(item, order)
    requires forall n :: 0 <= n < |order| ==> order[n] < |item.sids|
    ensures var p := Turns(item, tau, view, order);
      && AfterVisits(item, tau, view, AllSessions(item), p.view)
      && p.fired == |FiringAmong(item, tau, AllSessions(item))|
  {
    hide AfterVisits, AllLive, Turns, Fires, AllSessions;
    TurnsInvariant(item, tau, view, order);
    SessionsAre(item, order);
  }

  /** Seen from one session: it is retired exactly when its partner fires at it; then the partner is a strictly
      newer live record that names it in its links, and no session both retires and is retired. */
  lemma RetiredByNewerPartner(item: Item, tau: real, view: View, order: seq<nat>, s: nat)
    requires WellFormed(item) && AllLive(item, view) && VisitsAll(item, order) && s < |item.sids|
    requires forall n :: 0 <= n < |order| ==> order[n] < |item.sids|
    ensures var after := Turns(item, tau, view, order).view;
      var k, i := IndexOf(view, MemoryId(item, s)), Partner(item, s);
      && 0 <= k < |after| && after[k].id == MemoryId(item, s)
      && (after[k].quarantined <==> 0 <= i < |item.sids| && Fires(item, tau, i) && Partner(item, i) == s)
      && (after[k].quarantined ==>
            && item.dates[s] < item.dates[i] && !Fires(item, tau, s)
            && after[k].supersededBy == Some(MemoryId(item, i))
            && var c := IndexOf(view, MemoryId(item, i));
               0 <= c < |after| && !after[c].quarantined && MemoryId(item, s) in after[c].links)
  {
    hide Partner, MemoryId, IndexOf, Turns, Closeness;
    SupersessionIsMatching(item, tau, view, order);
    SessionsAre(item, order);
    var i := Partner(item, s);
    if 0 <= i < |item.sids| && Fires(item, tau, i) && Partner(item, i) == s {
      assert IsRetired(item, tau, AllSessions(item), s);
      assert !IsRetired(item, tau, AllSessions(item), i);
    }
  }
}
