/** Which records eviction retires, in terms of their fields (core/evolve/memory_ops.py). */
module EvictionRules {
  import opened Basics
  import opened Sorting
  import opened MemoryStore
  import opened Eviction

  ghost predicate IsLive(r: Rec) {
    !r.quarantined && r.ready
  }

  /** Asset profiles and records with a protected tag are kept. */
  ghost predicate IsKept(r: Rec, protect: set<string>) {
    r.tier == AssetProfile || exists tag :: tag in r.tags && tag in protect
  }

  ghost predicate MayGo(r: Rec, protect: set<string>) {
    IsLive(r) && !IsKept(r, protect)
  }

  lemma FieldsDecide(r: Rec, protect: set<string>)
    ensures IsActive(r) <==> IsLive(r)
    ensures IsProtected(r, protect) <==> IsKept(r, protect)
    ensures IsEvictable(r, protect) <==> MayGo(r, protect)
  {
    if tag :| tag in r.tags && tag in protect {
      var k :| 0 <= k < |r.tags| && r.tags[k] == tag;
    }
    if k :| 0 <= k < |r.tags| && r.tags[k] in protect {
      assert r.tags[k] in r.tags;
    }
  }

  // ---- utility ----

  /** The largest value of a measure over the records that may go, zero if none is positive. */
  ghost predicate IsTop(view: View, protect: set<string>, measure: Rec -> real, top: real) {
    && top >= 0.0 && (forall i :: 0 <= i < |view| && MayGo(view[i], protect) ==> measure(view[i]) <= top)
    && (top > 0.0 ==> exists i :: 0 <= i < |view| && MayGo(view[i], protect) && measure(view[i]) == top)
  }

  function Part(x: real, top: real): real {
    if top > 0.0 then x / top else 0.0
  }

  lemma {:induction false} PeakIsReached(view: View, protect: set<string>, s: Signal)
    ensures Peak(view, protect, s) > 0.0 ==>
      exists i :: 0 <= i < |view| && IsEvictable(view[i], protect) && SignalOf(view[i], s) == Peak(view, protect, s)
  {
    hide SignalOf, IsEvictable;
    if view != [] {
      var init, n := view[..|view| - 1], |view| - 1;
      PeakIsReached(init, protect, s);
      if Peak(view, protect, s) > 0.0 && !(IsEvictable(view[n], protect) && SignalOf(view[n], s) == Peak(view, protect, s)) {
        var i :| 0 <= i < |init| && IsEvictable(init[i], protect) && SignalOf(init[i], s) == Peak(init, protect, s);
        assert view[i] == init[i];
      }
    }
  }

  lemma PeakIsTop(view: View, protect: set<string>, s: Signal, measure: Rec -> real)
    requires forall r :: measure(r) == SignalOf(r, s)
    ensures IsTop(view, protect, measure, Peak(view, protect, s))
    ensures forall top :: IsTop(view, protect, measure, top) ==> top == Peak(view, protect, s)
  {
    hide SignalOf, MayGo, IsEvictable, Peak;
    forall i | 0 <= i < |view| ensures IsEvictable(view[i], protect) <==> MayGo(view[i], protect) {
      FieldsDecide(view[i], protect);
    }
    PeakIsReached(view, protect, s);
  }

  /** The utility of a record: four measures, each as a part of the largest among the records that may go, weighed and
      added: importance and strength, no less than zero, the number of accesses, and the number of links. */
  lemma UtilityIs(view: View, protect: set<string>, w: Weights, r: Rec, i: real, a: real, s: real, c: real)
    requires IsTop(view, protect, (x: Rec) => if x.importance < 0.0 then 0.0 else x.importance, i)
    requires IsTop(view, protect, (x: Rec) => x.accessCount as real, a)
    requires IsTop(view, protect, (x: Rec) => if x.strength < 0.0 then 0.0 else x.strength, s)
    requires IsTop(view, protect, (x: Rec) => |x.links| as real, c)
    ensures Utility(view, protect, w, r)
      == w.importance * Part(if r.importance < 0.0 then 0.0 else r.importance, i) + w.access * Part(r.accessCount as real, a)
         + w.recency * Part(if r.strength < 0.0 then 0.0 else r.strength, s) + w.centrality * Part(|r.links| as real, c)
  {
    hide IsTop, Peak;
    PeakIsTop(view, protect, Importance, (x: Rec) => if x.importance < 0.0 then 0.0 else x.importance);
    PeakIsTop(view, protect, Access, (x: Rec) => x.accessCount as real);
    PeakIsTop(view, protect, Recency, (x: Rec) => if x.strength < 0.0 then 0.0 else x.strength);
    PeakIsTop(view, protect, Centrality, (x: Rec) => |x.links| as real);
  }

  // ---- who goes ----

  /** Record i goes before record j: it is worth less; or as much, and is weaker; or as strong, and was inserted earlier. */
  ghost predicate GoesFirst(view: View, protect: set<string>, w: Weights, i: nat, j: nat)
    requires i < |view| && j < |view|
  {
    var u, v := Utility(view, protect, w, view[i]), Utility(view, protect, w, view[j]);
    u < v || (u == v && (view[i].strength < view[j].strength || (view[i].strength == view[j].strength && i < j)))
  }

  /** The positions of the records with a property. */
  ghost function Those(view: View, p: Rec -> bool): set<nat> {
    set i: nat | i < |view| && p(view[i])
  }

  lemma OneMoreOfThose(view: View, p: Rec -> bool)
    requires view != []
    ensures |Those(view, p)| == |Those(view[..|view| - 1], p)| + if p(view[|view| - 1]) then 1 else 0
  {
    var init, n := view[..|view| - 1], |view| - 1;
    var a, b := Those(view, p), Those(init, p);
    forall i: nat ensures i in a <==> i in b || (i == n && p(view[n])) {
      assert i < n ==> view[i] == init[i];
    }
    assert a == if p(view[n]) then b + {n as nat} else b;
  }

  lemma NoneOfThose(p: Rec -> bool)
    ensures Those([], p) == {}
  {
  }

  lemma {:induction false} CountsAreSets(view: View, protect: set<string>)
    ensures CountActive(view) == |Those(view, r => IsActive(r))|
    ensures CountProtected(view, protect) == |Those(view, r => IsActive(r) && IsProtected(r, protect))|
  {
    hide IsActive, IsProtected, Those;
    if view != [] {
      CountsAreSets(view[..|view| - 1], protect);
      OneMoreOfThose(view, r => IsActive(r));
      OneMoreOfThose(view, r => IsActive(r) && IsProtected(r, protect));
    } else {
      NoneOfThose(r => IsActive(r));
      NoneOfThose(r => IsActive(r) && IsProtected(r, protect));
    }
  }

  ghost function LiveOnes(view: View): set<nat> {
    set i: nat | i < |view| && IsLive(view[i])
  }

  ghost function KeptOnes(view: View, protect: set<string>): set<nat> {
    set i: nat | i < |view| && IsLive(view[i]) && IsKept(view[i], protect)
  }

  lemma CountsAreFields(view: View, protect: set<string>)
    ensures CountActive(view) == |LiveOnes(view)| && CountProtected(view, protect) == |KeptOnes(view, protect)|
  {
    hide IsLive, IsKept, IsActive, IsProtected;
    CountsAreSets(view, protect);
    forall i: nat | i < |view| ensures IsActive(view[i]) <==> IsLive(view[i]) ensures IsProtected(view[i], protect) <==> IsKept(view[i], protect) {
      FieldsDecide(view[i], protect);
    }
    assert Those(view, r => IsActive(r)) == LiveOnes(view);
    assert Those(view, r => IsActive(r) && IsProtected(r, protect)) == KeptOnes(view, protect);
  }

  lemma LiveIsNotMarked(r: Rec, protect: set<string>)
    ensures MayGo(r, protect) ==> !r.quarantined
  {
  }

  lemma KeysAre(view: View, protect: set<string>, w: Weights, i: nat, j: nat)
    requires i < |view| && j < |view| && KeyLe(Key(view, protect, w, i), Key(view, protect, w, j))
    requires Key(view, protect, w, i) == Key(view, protect, w, j) ==> i < j
    ensures GoesFirst(view, protect, w, i, j)
  {
    hide Utility;
  }

  /** Each victim is marked once. */
  lemma {:induction false} MarkedOnce(view: View, victims: seq<nat>, i: nat)
    requires Distinct(victims) && i < |view|
    ensures |QuarantineAll(view, victims)| == |view|
    ensures QuarantineAll(view, victims)[i]
      == if i in victims then view[i].(quarantined := true, tags := view[i].tags + ["quarantine:evicted"]) else view[i]
  {
    QuarantineKeeps(view, victims, i);
    if victims != [] {
      var init, last := victims[..|victims| - 1], victims[|victims| - 1];
      assert victims == init + [last] && last !in init;
      MarkedOnce(view, init, i);
      assert "quarantine:" + "evicted" == "quarantine:evicted";
    }
  }

  /** Eviction retires exactly as many records as the budget demands, of those that may go, the first in the order, and
      only marks them; the others are left as they were. Within the budget nothing happens, and a negative one is
      refused. */
  lemma EvictionIs(view: View, budget: int, w: Weights, protect: set<string>)
    ensures Evicted(view, budget, w, protect).Err? <==> budget < 0
    ensures 0 <= budget && |LiveOnes(view)| <= budget ==> Evicted(view, budget, w, protect) == Ok(view)
    ensures 0 <= budget < |LiveOnes(view)| ==>
      var after := Evicted(view, budget, w, protect).value;
      && |after| == |view| && |LiveOnes(after)| == Max(budget, |KeptOnes(view, protect)|)
      && (forall i: nat :: i < |view| ==>
            after[i] == view[i]
            || (MayGo(view[i], protect) && after[i] == view[i].(quarantined := true, tags := view[i].tags + ["quarantine:evicted"])))
      && forall i: nat, j: nat | i < |view| && j < |view| && MayGo(view[i], protect) && MayGo(view[j], protect)
           :: after[i].quarantined && !after[j].quarantined ==> GoesFirst(view, protect, w, i, j)
  {
    hide LiveOnes, KeptOnes, ToEvict, CountActive, CountProtected, MayGo, GoesFirst, QuarantineAll;
    CountsAreFields(view, protect);
    if 0 <= budget < |LiveOnes(view)| {
      EvictionMeetsBudget(view, budget, w, protect);
      var after := Evicted(view, budget, w, protect).value;
      CountsAreFields(after, protect);
      VictimFacts(view, budget, w, protect);
      var victims := ToEvict(view, budget, w, protect);
      forall i: nat | i < |view|
        ensures if i in victims then MayGo(view[i], protect) && after[i] == view[i].(quarantined := true, tags := view[i].tags + ["quarantine:evicted"])
          else after[i] == view[i]
      {
        FieldsDecide(view[i], protect);
        MarkedOnce(view, victims, i);
      }
      forall i: nat, j: nat | i < |view| && j < |view| && MayGo(view[i], protect) && MayGo(view[j], protect)
        && after[i].quarantined && !after[j].quarantined ensures GoesFirst(view, protect, w, i, j)
      {
        LiveIsNotMarked(view[i], protect);
        FieldsDecide(view[j], protect);
        assert i in victims && j !in victims;
        KeysAre(view, protect, w, i, j);
      }
    }
  }
}
