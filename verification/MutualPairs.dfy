/** Which sessions retire which, read off their terms and dates (core/eval/longmemeval_memevo.py). */
module MutualPairs {
  import opened Basics
  import opened MemoryStore
  import opened Supersession

  /** j is the most similar session to i, the first one if several are. */
  ghost predicate FirstClosest(item: Item, i: int, j: int)
    requires WellFormed(item)
  {
    && 0 <= i < |item.sids| && 0 <= j < |item.sids| && i != j
    && forall m :: 0 <= m < |item.sids| && m != i ==>
         && Jaccard(item.terms[i], item.terms[m]) <= Jaccard(item.terms[i], item.terms[j])
         && (m < j ==> Jaccard(item.terms[i], item.terms[m]) < Jaccard(item.terms[i], item.terms[j]))
  }

  /** Session i replaces session s: they are closest to each other, close enough, and s is older. */
  ghost predicate Replaces(item: Item, tau: real, i: int, s: int)
    requires WellFormed(item)
  {
    && FirstClosest(item, i, s) && FirstClosest(item, s, i)
    && Jaccard(item.terms[i], item.terms[s]) >= tau && item.dates[s] < item.dates[i]
  }

  lemma SomeoneIsNearest(terms: seq<set<string>>, i: nat, n: nat, j: nat)
    requires i < |terms| && j < n <= |terms| && j != i
    ensures Nearest(terms, i, n).0 >= 0
  {
    hide Jaccard;
    NearestFacts(terms, i, n);
    JaccardIsShare(terms[i], terms[j]);
  }

  lemma PartnerIsFirst(item: Item, i: nat, j: int)
    requires WellFormed(item) && i < |item.sids|
    ensures j >= 0 && Partner(item, i) == j <==> FirstClosest(item, i, j)
    ensures FirstClosest(item, i, j) ==> Closeness(item, i) == Jaccard(item.terms[i], item.terms[j])
  {
    hide Jaccard;
    NearestFacts(item.terms, i, |item.terms|);
    var p := Partner(item, i);
    if FirstClosest(item, i, j) {
      SomeoneIsNearest(item.terms, i, |item.terms|, j);
    }
  }

  lemma ClosestInRange(item: Item, i: int, s: int)
    requires WellFormed(item)
    ensures FirstClosest(item, i, s) ==> 0 <= s < |item.sids|
  {
  }

  lemma FiringIsReplacing(item: Item, tau: real, i: nat, s: int)
    requires WellFormed(item) && i < |item.sids|
    ensures Fires(item, tau, i) && Partner(item, i) == s <==> Replaces(item, tau, i, s)
  {
    hide Partner, Closeness, FirstClosest, Jaccard;
    PartnerIsFirst(item, i, s);
    if 0 <= s < |item.sids| {
      PartnerIsFirst(item, s, i);
    }
    ClosestInRange(item, i, s);
  }

  /** Replacing is one to one, and nobody both replaces and is replaced. */
  lemma ReplacingIsMatching(item: Item, tau: real, i: int, s: int, k: int, u: int)
    requires WellFormed(item) && Replaces(item, tau, i, s) && Replaces(item, tau, k, u)
    ensures i == k <==> s == u
    ensures i != u && s != k
  {
    hide Jaccard;
  }

  ghost predicate IsReplaced(item: Item, tau: real, s: int)
    requires WellFormed(item)
  {
    exists i :: Replaces(item, tau, i, s)
  }

  ghost predicate ReplacesOne(item: Item, tau: real, i: int)
    requires WellFormed(item)
  {
    exists s :: Replaces(item, tau, i, s)
  }

  /** The sessions that replace another one. */
  ghost function Replacing(item: Item, tau: real): set<nat>
    requires WellFormed(item)
  {
    set i: nat | i < |item.sids| && ReplacesOne(item, tau, i)
  }

  lemma FiringReplacesOne(item: Item, tau: real, i: nat)
    requires WellFormed(item) && i < |item.sids|
    ensures Fires(item, tau, i) <==> ReplacesOne(item, tau, i)
  {
    hide Fires, Replaces, Partner;
    FiringIsReplacing(item, tau, i, Partner(item, i));
    if s :| Replaces(item, tau, i, s) {
      FiringIsReplacing(item, tau, i, s);
    }
  }

  lemma ReplacingAreFiring(item: Item, tau: real)
    requires WellFormed(item)
    ensures FiringAmong(item, tau, AllSessions(item)) == Replacing(item, tau)
  {
    hide Fires, ReplacesOne;
    forall i: nat ensures i in FiringAmong(item, tau, AllSessions(item)) <==> i in Replacing(item, tau) {
      if i < |item.sids| {
        FiringReplacesOne(item, tau, i);
        assert Indices(|item.sids|)[i] == i;
      }
    }
  }

  lemma ReplacedInRange(item: Item, tau: real, i: int, s: int)
    requires WellFormed(item) && Replaces(item, tau, i, s)
    ensures 0 <= i < |item.sids| && 0 <= s < |item.sids|
  {
  }

  lemma MutualPartner(item: Item, tau: real, i: nat, s: nat)
    requires WellFormed(item) && i < |item.sids| && s < |item.sids| && Replaces(item, tau, i, s)
    ensures Partner(item, s) == i
  {
    hide FirstClosest, Partner;
    PartnerIsFirst(item, s, i);
  }

  /** The pass, in whatever order, over sessions that are all live: as many supersessions as replacing sessions; a session is
      retired exactly if another replaces it, which it then names and which stays live and links to it. */
  lemma PairsDecide(item: Item, tau: real, view: View, order: seq<nat>, s: nat)
    requires WellFormed(item) && AllLive(item, view) && VisitsAll(item, order) && s < |item.sids|
    requires forall n :: 0 <= n < |order| ==> order[n] < |item.sids|
    ensures Turns(item, tau, view, order).fired == |Replacing(item, tau)|
    ensures var after, k := Turns(item, tau, view, order).view, IndexOf(view, "m-" + item.sids[s]);
      && 0 <= k < |after| && after[k].id == "m-" + item.sids[s]
      && (after[k].quarantined <==> IsReplaced(item, tau, s))
      && forall i :: Replaces(item, tau, i, s) ==>
           && 0 <= i < |item.sids| && after[k].supersededBy == Some("m-" + item.sids[i])
           && var c := IndexOf(view, "m-" + item.sids[i]);
              0 <= c < |after| && !after[c].quarantined && "m-" + item.sids[s] in after[c].links
  {
    hide Turns, Fires, Replaces, Partner, AllLive, VisitsAll, IndexOf, AfterVisits, FiringAmong, Replacing, AllSessions;
    SupersessionIsMatching(item, tau, view, order);
    ReplacingAreFiring(item, tau);
    RetiredByNewerPartner(item, tau, view, order, s);
    forall i | Replaces(item, tau, i, s) ensures 0 <= i < |item.sids| && Fires(item, tau, i) && Partner(item, i) == s && Partner(item, s) == i {
      ReplacedInRange(item, tau, i, s);
      FiringIsReplacing(item, tau, i, s);
      MutualPartner(item, tau, i, s);
    }
    var i := Partner(item, s);
    if 0 <= i < |item.sids| {
      FiringIsReplacing(item, tau, i, s);
    }
  }

  lemma RetiredIsReplaced(item: Item, tau: real, done: set<nat>, s: nat)
    requires WellFormed(item) && s < |item.sids| && IsRetired(item, tau, done, s)
    ensures IsReplaced(item, tau, s)
  {
    hide Fires, Replaces, Partner;
    FiringIsReplacing(item, tau, Partner(item, s), s);
  }

  /** Every other record is left as it was. */
  lemma OthersAreLeft(item: Item, tau: real, view: View, order: seq<nat>, k: nat)
    requires WellFormed(item) && AllLive(item, view) && VisitsAll(item, order) && k < |view|
    requires forall n :: 0 <= n < |order| ==> order[n] < |item.sids|
    requires forall s: nat :: s < |item.sids| && view[k].id == "m-" + item.sids[s] ==> !IsReplaced(item, tau, s) && !ReplacesOne(item, tau, s)
    ensures k < |Turns(item, tau, view, order).view| && Turns(item, tau, view, order).view[k] == view[k]
  {
    hide Turns, Fires, Replaces, Partner, VisitsAll, IndexOf, FiringAmong, AllSessions, IsReplaced, ReplacesOne, UniqueIds;
    SupersessionIsMatching(item, tau, view, order);
    if s: nat :| s < |item.sids| && view[k].id == MemoryId(item, s) {
      IndexOfIs(view, k);
      FiringReplacesOne(item, tau, s);
      if IsRetired(item, tau, AllSessions(item), s) {
        RetiredIsReplaced(item, tau, AllSessions(item), s);
      }
    }
  }
}
