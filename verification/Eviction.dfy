/** Capacity-budgeted eviction by learned worth (core/evolve/memory_ops.py). */
module Eviction {
  import opened Basics
  import opened Sorting
  import opened MemoryStore

  datatype EvictError = NegativeBudget

  datatype Weights = Weights(importance: real, access: real, recency: real, centrality: real)

  const EQUAL_WEIGHTS := Weights(0.25, 0.25, 0.25, 0.25)

  predicate IsProtected(r: Rec, protect: set<string>) {
    r.tier == AssetProfile || exists k :: 0 <= k < |r.tags| && r.tags[k] in protect
  }

  predicate IsEvictable(r: Rec, protect: set<string>) {
    IsActive(r) && !IsProtected(r, protect)
  }

  /** Positions of the evictable records among the first n, in insertion order. */
  function Evictable(view: View, protect: set<string>, n: nat): seq<nat>
    requires n <= |view|
  {
    if n == 0 then []
    else Evictable(view, protect, n - 1) + if IsEvictable(view[n - 1], protect) then [n - 1] else []
  }

  function CountActive(view: View): nat {
    if view == [] then 0
    else CountActive(view[..|view| - 1]) + if IsActive(view[|view| - 1]) then 1 else 0
  }

  function CountProtected(view: View, protect: set<string>): nat {
    if view == [] then 0
    else
      CountProtected(view[..|view| - 1], protect)
      + if IsActive(view[|view| - 1]) && IsProtected(view[|view| - 1], protect) then 1 else 0
  }

  // ---- utility ----

  datatype Signal = Importance | Access | Recency | Centrality

  function NonNegative(x: real): real {
    if x < 0.0 then 0.0 else x
  }

  function SignalOf(r: Rec, s: Signal): real {
    match s
    case Importance => NonNegative(r.importance)
    case Access => r.accessCount as real
    case Recency => NonNegative(r.strength)
    case Centrality => |r.links| as real
  }

  /** Largest value of a signal over the evictable records, zero if there are none. */
  function Peak(view: View, protect: set<string>, s: Signal): (hi: real)
    ensures hi >= 0.0
    ensures forall i :: 0 <= i < |view| && IsEvictable(view[i], protect) ==> SignalOf(view[i], s) <= hi
  {
    if view == [] then 0.0
    else
      var hi, r := Peak(view[..|view| - 1], protect, s), view[|view| - 1];
      if IsEvictable(r, protect) && SignalOf(r, s) > hi then SignalOf(r, s) else hi
  }

  function Normalised(view: View, protect: set<string>, r: Rec, s: Signal): real {
    var hi := Peak(view, protect, s);
    if hi > 0.0 then SignalOf(r, s) / hi else 0.0
  }

  function Utility(view: View, protect: set<string>, w: Weights, r: Rec): real {
    w.importance * Normalised(view, protect, r, Importance) + w.access * Normalised(view, protect, r, Access)
    + w.recency * Normalised(view, protect, r, Recency) + w.centrality * Normalised(view, protect, r, Centrality)
  }

  /** Nonnegative weights with a sum of at most one. */
  predicate IsBlend(w: Weights) {
    && w.importance >= 0.0 && w.access >= 0.0 && w.recency >= 0.0 && w.centrality >= 0.0
    && w.importance + w.access + w.recency + w.centrality <= 1.0
  }

  ghost predicate IsShare(view: View, protect: set<string>, w: Weights, i: nat) {
    i < |view| && IsEvictable(view[i], protect) ==> 0.0 <= Utility(view, protect, w, view[i]) <= 1.0
  }

  lemma Part(w: real, x: real) returns (part: real)
    requires w >= 0.0 && 0.0 <= x <= 1.0
    ensures part == w * x && 0.0 <= part <= w
  {
    part := w * x;
    assert w * (1.0 - x) >= 0.0;
  }

  lemma Blend(w: Weights, a: real, b: real, c: real, d: real)
    requires IsBlend(w) && 0.0 <= a <= 1.0 && 0.0 <= b <= 1.0 && 0.0 <= c <= 1.0 && 0.0 <= d <= 1.0
    ensures 0.0 <= w.importance * a + w.access * b + w.recency * c + w.centrality * d <= 1.0
  {
    var importance := Part(w.importance, a);
    var access := Part(w.access, b);
    var recency := Part(w.recency, c);
    var centrality := Part(w.centrality, d);
    assert 0.0 <= importance + access + recency + centrality <= 1.0;
  }

  lemma NormalisedInRange(view: View, protect: set<string>, i: nat, s: Signal)
    requires i < |view| && IsEvictable(view[i], protect)
    ensures 0.0 <= Normalised(view, protect, view[i], s) <= 1.0
  {
    var hi, v := Peak(view, protect, s), SignalOf(view[i], s);
    if hi > 0.0 {
      Share(v, hi);
    }
  }

  lemma BlendIsShare(view: View, protect: set<string>, w: Weights, i: nat)
    requires IsBlend(w)
    ensures IsShare(view, protect, w, i)
  {
    hide IsEvictable, Normalised;
    if i < |view| && IsEvictable(view[i], protect) {
      NormalisedInRange(view, protect, i, Importance);
      NormalisedInRange(view, protect, i, Access);
      NormalisedInRange(view, protect, i, Recency);
      NormalisedInRange(view, protect, i, Centrality);
      var r := view[i];
      Blend(w, Normalised(view, protect, r, Importance), Normalised(view, protect, r, Access),
            Normalised(view, protect, r, Recency), Normalised(view, protect, r, Centrality));
    }
  }

  /** A lone record that has or lacks each of the four signals. */
  function Lone(importance: bool, access: bool, recency: bool, centrality: bool): Rec {
    Rec("m", Episodic, [], [], false, true, 1.0, if importance then 1.0 else 0.0, if recency then 1.0 else 0.0,
        if access then 1 else 0, [], if centrality then ["n"] else [], [], None, None, None, None, None, None)
  }

  lemma LoneIsEvictable(r: Rec)
    requires r.tier == Episodic && r.tags == [] && !r.quarantined && r.ready
    ensures IsEvictable(r, {})
  {
  }

  lemma LonePeak(r: Rec, s: Signal)
    requires IsEvictable(r, {}) && SignalOf(r, s) in {0.0, 1.0}
    ensures Normalised([r], {}, r, s) == SignalOf(r, s)
  {
    hide IsEvictable;
    assert Peak([r][..0], {}, s) == 0.0;
    assert Peak([r], {}, s) == SignalOf(r, s);
  }

  lemma LoneUtility(w: Weights, importance: bool, access: bool, recency: bool, centrality: bool)
    ensures IsEvictable(Lone(importance, access, recency, centrality), {})
    ensures Utility([Lone(importance, access, recency, centrality)], {}, w, Lone(importance, access, recency, centrality))
            == (if importance then w.importance else 0.0) + (if access then w.access else 0.0)
               + (if recency then w.recency else 0.0) + (if centrality then w.centrality else 0.0)
  {
    hide Normalised;
    var r := Lone(importance, access, recency, centrality);
    LoneIsEvictable(r);
    LonePeak(r, Importance);
    LonePeak(r, Access);
    LonePeak(r, Recency);
    LonePeak(r, Centrality);
  }

  lemma NoBlendNoShare(w: Weights)
    requires !IsBlend(w)
    ensures !(forall view, protect, i :: IsShare(view, protect, w, i))
  {
    hide IsEvictable, Utility, Lone;
    var importance := w.importance < 0.0;
    var access := !importance && w.access < 0.0;
    var recency := !importance && !access && w.recency < 0.0;
    var centrality := !importance && !access && !recency && w.centrality < 0.0;
    var all := !importance && !access && !recency && !centrality;
    var r := Lone(importance || all, access || all, recency || all, centrality || all);
    LoneUtility(w, importance || all, access || all, recency || all, centrality || all);
    assert [r][0] == r;
    assert !IsShare([r], {}, w, 0);
  }

  /** Utility is a share, between zero and one for every evictable record of every store, if and only if the weights
      are a blend. */
  lemma UtilityInRange(w: Weights)
    ensures (forall view, protect, i :: IsShare(view, protect, w, i)) <==> IsBlend(w)
    ensures IsBlend(EQUAL_WEIGHTS)
  {
    hide IsShare;
    if IsBlend(w) {
      forall view, protect, i ensures IsShare(view, protect, w, i) {
        BlendIsShare(view, protect, w, i);
      }
    } else {
      NoBlendNoShare(w);
    }
  }

  // ---- eviction ----

  function Key(view: View, protect: set<string>, w: Weights, i: nat): (real, real) {
    if i < |view| then (Utility(view, protect, w, view[i]), view[i].strength) else (0.0, 0.0)
  }

  predicate KeyLe(a: (real, real), b: (real, real)) {
    a.0 < b.0 || (a.0 == b.0 && a.1 <= b.1)
  }

  /** Lowest utility first, then lower strength, then insertion order. */
  function EvictionOrder(view: View, protect: set<string>, w: Weights): seq<nat> {
    Sort(Evictable(view, protect, |view|), (a: nat, b: nat) => KeyLe(Key(view, protect, w, a), Key(view, protect, w, b)))
  }

  function ToEvict(view: View, budget: nat, w: Weights, protect: set<string>): seq<nat> {
    var keep := Max(0, budget - CountProtected(view, protect));
    Take(EvictionOrder(view, protect, w), Max(0, |Evictable(view, protect, |view|)| - keep))
  }

  function QuarantineAll(view: View, victims: seq<nat>): View {
    if victims == [] then view
    else
      var before, last := QuarantineAll(view, victims[..|victims| - 1]), victims[|victims| - 1];
      if last < |before| then before[last := Quarantine(before[last], "evicted")] else before
  }

  function Evicted(view: View, budget: int, w: Weights, protect: set<string>): Result<View, EvictError> {
    if budget < 0 then Err(NegativeBudget)
    else if CountActive(view) <= budget then Ok(view)
    else Ok(QuarantineAll(view, ToEvict(view, budget, w, protect)))
  }

  function Ids(view: View, victims: seq<nat>): seq<string> {
    if victims == [] then []
    else
      var last := victims[|victims| - 1];
      Ids(view, victims[..|victims| - 1]) + [if last < |view| then view[last].id else ""]
  }

  lemma NoIds(view: View)
    ensures Ids(view, []) == []
  {
  }

  lemma OneMoreId(view: View, victims: seq<nat>, last: nat)
    requires last < |view|
    ensures Ids(view, victims + [last]) == Ids(view, victims) + [view[last].id]
  {
    assert (victims + [last])[..|victims|] == victims;
  }

  /** The order lists the evictable positions once each, by rising key. */
  lemma OrderFacts(view: View, w: Weights, protect: set<string>)
    ensures var order := EvictionOrder(view, protect, w);
      && Distinct(order)
      && (forall i :: i in order <==> 0 <= i < |view| && IsEvictable(view[i], protect))
      && |order| == |Evictable(view, protect, |view|)| == CountActive(view) - CountProtected(view, protect)
      && (forall a, b :: 0 <= a < b < |order| ==> KeyLe(Key(view, protect, w, order[a]), Key(view, protect, w, order[b])))
      && (forall a, b :: 0 <= a < b < |order| && KeyLe(Key(view, protect, w, order[b]), Key(view, protect, w, order[a])) ==>
            order[a] < order[b])
  {
    hide Key, IsEvictable, KeyLe, CountActive, CountProtected, Evictable;
    var le := (a: nat, b: nat) => KeyLe(Key(view, protect, w, a), Key(view, protect, w, b));
    var s, order := Evictable(view, protect, |view|), EvictionOrder(view, protect, w);
    EvictableFacts(view, protect, |view|);
    EvictableCount(view, protect, |view|);
    assert view[..|view|] == view;
    SortPermutes(s, le);
    SortMembers(s, le);
    DistinctPermutes(s, order);
    KeyOrderTotal(view, protect, w);
    SortSorts(s, le);
    SortAscends(s, le);
    forall a, b | 0 <= a < b < |order| && KeyLe(Key(view, protect, w, order[b]), Key(view, protect, w, order[a]))
      ensures order[a] < order[b]
    {
      assert le(order[b], order[a]);
    }
    forall a, b | 0 <= a < b < |order| ensures KeyLe(Key(view, protect, w, order[a]), Key(view, protect, w, order[b])) {
      assert le(order[a], order[b]);
    }
  }

  lemma KeyLeReflexive(a: (real, real))
    ensures KeyLe(a, a)
  {
  }

  lemma InPrefix(s: seq<nat>, t: seq<nat>, b: nat)
    requires b < |s| && |t| <= |s| && t == s[..|t|] && s[b] !in t
    ensures b >= |t|
  {
    assert forall k :: 0 <= k < |t| ==> t[k] == s[k];
  }

  /** The victims: evictable, each once, as many as needed, and ordered below everyone who is spared; among equal keys
      the record inserted first goes first. */
  lemma VictimFacts(view: View, budget: nat, w: Weights, protect: set<string>)
    ensures var victims := ToEvict(view, budget, w, protect);
      && Distinct(victims)
      && (forall i :: i in victims ==> i < |view| && IsEvictable(view[i], protect))
      && |victims| == Max(0, CountActive(view) - CountProtected(view, protect) - Max(0, budget - CountProtected(view, protect)))
      && (forall i, j :: i in victims && 0 <= j < |view| && IsEvictable(view[j], protect) && j !in victims ==>
            KeyLe(Key(view, protect, w, i), Key(view, protect, w, j))
            && (Key(view, protect, w, i) == Key(view, protect, w, j) ==> i < j))
      && (forall a, b :: 0 <= a < b < |victims| ==>
            KeyLe(Key(view, protect, w, victims[a]), Key(view, protect, w, victims[b]))
            && (Key(view, protect, w, victims[a]) == Key(view, protect, w, victims[b]) ==> victims[a] < victims[b]))
  {
    hide Key, IsEvictable, KeyLe, CountActive, CountProtected, Evictable, EvictionOrder;
    var order, victims := EvictionOrder(view, protect, w), ToEvict(view, budget, w, protect);
    OrderFacts(view, w, protect);
    assert victims == order[..|victims|];
    forall a, b | 0 <= a < b < |victims| && Key(view, protect, w, victims[a]) == Key(view, protect, w, victims[b])
      ensures victims[a] < victims[b]
    {
      KeyLeReflexive(Key(view, protect, w, victims[a]));
      assert victims[a] == order[a] && victims[b] == order[b];
    }
    forall i | i in victims ensures i < |view| && IsEvictable(view[i], protect) {
      assert i in order;
    }
    forall i, j | i in victims && 0 <= j < |view| && IsEvictable(view[j], protect) && j !in victims
      ensures KeyLe(Key(view, protect, w, i), Key(view, protect, w, j))
      ensures Key(view, protect, w, i) == Key(view, protect, w, j) ==> i < j
    {
      KeyLeReflexive(Key(view, protect, w, i));
      assert j in order;
      var a :| 0 <= a < |victims| && victims[a] == i;
      var b :| 0 <= b < |order| && order[b] == j;
      InPrefix(order, victims, b);
      assert order[a] == i;
    }
  }

  lemma VictimsInRange(view: View, budget: nat, w: Weights, protect: set<string>)
    ensures forall n :: 0 <= n < |ToEvict(view, budget, w, protect)| ==> ToEvict(view, budget, w, protect)[n] < |view|
  {
    VictimFacts(view, budget, w, protect);
    forall n | 0 <= n < |ToEvict(view, budget, w, protect)| ensures ToEvict(view, budget, w, protect)[n] < |view| {
      assert ToEvict(view, budget, w, protect)[n] in ToEvict(view, budget, w, protect);
    }
  }

  /** Quarantining touches the victims only, one step each. */
  lemma {:induction false} QuarantineKeeps(view: View, victims: seq<nat>, i: nat)
    ensures |QuarantineAll(view, victims)| == |view|
    ensures i < |view| && i !in victims ==> QuarantineAll(view, victims)[i] == view[i]
    ensures i < |view| && i in victims ==> !IsActive(QuarantineAll(view, victims)[i])
    ensures i < |view| ==> QuarantineAll(view, victims)[i].tier == view[i].tier
  {
    if victims != [] {
      QuarantineKeeps(view, victims[..|victims| - 1], i);
      assert victims == victims[..|victims| - 1] + [victims[|victims| - 1]];
    }
  }

  method UtilityEvict(store: Store, budget: int, w: Weights, protect: set<string>)
    returns (r: Result<seq<string>, EvictError>)
    requires store.Valid()
    modifies store.records
    ensures store.Valid()
    ensures match Evicted(old(store.View()), budget, w, protect)
      case Err(e) => r == Err(e) && store.View() == old(store.View())
      case Ok(view) => r.Ok? && store.View() == view
    ensures r.Ok? && CountActive(old(store.View())) > budget ==>
      r.value == Ids(old(store.View()), ToEvict(old(store.View()), budget, w, protect))
  {
    hide ToEvict, CountActive, Quarantine, Ids, IsActive;
    if budget < 0 {
      return Err(NegativeBudget);
    }
    var view := store.View();
    if CountActive(view) <= budget {
      return Ok([]);
    }
    var victims := ToEvict(view, budget, w, protect);
    VictimsInRange(view, budget, w, protect);
    var forgotten: seq<string> := [];
    NoIds(view);
    for n := 0 to |victims|
      invariant store.Valid() && |store.records| == |view|
      invariant store.View() == QuarantineAll(view, victims[..n])
      invariant forgotten == Ids(view, victims[..n])
    {
      assert victims[..n + 1][..n] == victims[..n];
      QuarantineKeeps(view, victims[..n], victims[n]);
      OneMoreId(view, victims[..n], victims[n]);
      assert victims[..n + 1] == victims[..n] + [victims[n]];
      store.QuarantineAt(victims[n], "evicted");
      forgotten := forgotten + [view[victims[n]].id];
    }
    assert victims[..|victims|] == victims;
    return Ok(forgotten);
  }

  // ---- who goes ----

  lemma {:induction false} EvictableFacts(view: View, protect: set<string>, n: nat)
    requires n <= |view|
    ensures var s := Evictable(view, protect, n);
      && (forall i :: i in s <==> 0 <= i < n && IsEvictable(view[i], protect))
      && (forall a, b :: 0 <= a < b < |s| ==> s[a] < s[b])
  {
    hide IsEvictable;
    if n > 0 {
      EvictableFacts(view, protect, n - 1);
      var s := Evictable(view, protect, n - 1);
      forall a | 0 <= a < |s| ensures s[a] < n - 1 {
        assert s[a] in s;
      }
    }
  }

  lemma {:induction false} EvictableCount(view: View, protect: set<string>, n: nat)
    requires n <= |view|
    ensures |Evictable(view, protect, n)| == CountActive(view[..n]) - CountProtected(view[..n], protect)
  {
    hide IsProtected;
    if n > 0 {
      EvictableCount(view, protect, n - 1);
      assert view[..n][..n - 1] == view[..n - 1];
    }
  }

  lemma KeyOrderTotal(view: View, protect: set<string>, w: Weights)
    ensures TotalPreorder((a: nat, b: nat) => KeyLe(Key(view, protect, w, a), Key(view, protect, w, b)))
  {
    hide Key;
  }

  lemma {:induction false} CountAfterOne(view: View, i: nat, r: Rec, protect: set<string>)
    requires i < |view| && IsEvictable(view[i], protect) && !IsActive(r)
    ensures CountActive(view[i := r]) == CountActive(view) - 1
    ensures CountProtected(view[i := r], protect) == CountProtected(view, protect)
  {
    hide IsProtected;
    var n := |view| - 1;
    if i == n {
      assert view[i := r][..n] == view[..n];
    } else {
      CountAfterOne(view[..n], i, r, protect);
      assert view[i := r][..n] == view[..n][i := r];
    }
  }

  lemma {:induction false} CountAfterAll(view: View, victims: seq<nat>, protect: set<string>)
    requires Distinct(victims) && forall n :: 0 <= n < |victims| ==> victims[n] < |view| && IsEvictable(view[victims[n]], protect)
    ensures CountActive(QuarantineAll(view, victims)) == CountActive(view) - |victims|
    ensures CountProtected(QuarantineAll(view, victims), protect) == CountProtected(view, protect)
  {
    hide CountActive, CountProtected, IsEvictable;
    if victims != [] {
      var init, last := victims[..|victims| - 1], victims[|victims| - 1];
      CountAfterAll(view, init, protect);
      QuarantineKeeps(view, init, last);
      var before := QuarantineAll(view, init);
      assert last !in init;
      CountAfterOne(before, last, Quarantine(before[last], "evicted"), protect);
    }
  }

  lemma {:induction false} ProtectedAtMostActive(view: View, protect: set<string>)
    ensures CountProtected(view, protect) <= CountActive(view)
  {
    hide IsProtected;
    if view != [] {
      ProtectedAtMostActive(view[..|view| - 1], protect);
    }
  }

  lemma VictimPositions(view: View, budget: nat, w: Weights, protect: set<string>)
    ensures var victims := ToEvict(view, budget, w, protect);
      forall n :: 0 <= n < |victims| ==> victims[n] < |view| && IsEvictable(view[victims[n]], protect)
  {
    hide ToEvict, IsEvictable;
    VictimFacts(view, budget, w, protect);
    var victims := ToEvict(view, budget, w, protect);
    forall n | 0 <= n < |victims| ensures victims[n] < |view| && IsEvictable(view[victims[n]], protect) {
      assert victims[n] in victims;
    }
  }

  lemma EvictableIsActive(r: Rec, protect: set<string>)
    ensures IsEvictable(r, protect) ==> IsActive(r)
  {
  }

  /** Eviction meets its budget exactly: when the active records exceed it, what stays active is the budget
      or the protected records, whichever is more; protected and inactive records are not touched, and every
      evicted record ranks at or below every spared one. */
  lemma EvictionMeetsBudget(view: View, budget: nat, w: Weights, protect: set<string>)
    requires CountActive(view) > budget
    ensures var after := Evicted(view, budget, w, protect).value;
      && |after| == |view|
      && CountActive(after) == Max(budget, CountProtected(view, protect))
      && (forall i :: 0 <= i < |view| && !IsEvictable(view[i], protect) ==> after[i] == view[i])
      && (forall i :: 0 <= i < |view| && IsActive(view[i]) && IsActive(after[i]) ==> after[i] == view[i])
      && forall i, j | 0 <= i < |view| && 0 <= j < |view| && IsEvictable(view[i], protect) && IsEvictable(view[j], protect)
           :: !IsActive(after[i]) && IsActive(after[j]) ==> KeyLe(Key(view, protect, w, i), Key(view, protect, w, j))
  {
    hide ToEvict, IsEvictable, CountActive, CountProtected, Key, KeyLe, Quarantine;
    var victims := ToEvict(view, budget, w, protect);
    VictimFacts(view, budget, w, protect);
    VictimPositions(view, budget, w, protect);
    CountAfterAll(view, victims, protect);
    ProtectedAtMostActive(view, protect);
    var after := QuarantineAll(view, victims);
    QuarantineKeeps(view, victims, 0);
    forall i | 0 <= i < |view|
      ensures i !in victims ==> after[i] == view[i]
      ensures i in victims ==> !IsActive(after[i])
      ensures IsEvictable(view[i], protect) ==> IsActive(view[i])
    {
      QuarantineKeeps(view, victims, i);
      EvictableIsActive(view[i], protect);
    }
  }

  lemma NoVictims(view: View)
    ensures QuarantineAll(view, []) == view
  {
  }

  /** A second call with the same budget changes nothing. */
  lemma EvictionIsIdempotent(view: View, budget: nat, w: Weights, protect: set<string>)
    ensures var after := Evicted(view, budget, w, protect).value;
      Evicted(after, budget, w, protect) == Ok(after)
  {
    hide ToEvict, IsEvictable, CountActive, CountProtected, Key, KeyLe, QuarantineAll;
    if CountActive(view) > budget {
      var victims := ToEvict(view, budget, w, protect);
      var after := QuarantineAll(view, victims);
      VictimFacts(view, budget, w, protect);
      VictimPositions(view, budget, w, protect);
      CountAfterAll(view, victims, protect);
      ProtectedAtMostActive(view, protect);
      VictimFacts(after, budget, w, protect);
      if CountActive(after) > budget {
        assert ToEvict(after, budget, w, protect) == [];
        NoVictims(after);
      }
    }
  }
}
