/** Keyed world facts with half-open validity intervals (core/evolve/memory_ops.py). */
module FactHistory {
  import opened Basics
  import opened MemoryStore

  // ---- one observation ----

  datatype Observation = Observation(subject: string, relation: string, value: string, time: int, newId: string, confidence: real)

  function FactTags(subject: string, relation: string, value: string): seq<string> {
    ["keyed_fact", "subject:" + subject, "relation:" + relation, "value:" + value]
  }

  predicate FactMatches(r: Rec, subject: string, relation: string) {
    r.eventType == Some("keyed_fact") && "subject:" + subject in r.tags && "relation:" + relation in r.tags
  }

  predicate ValidAt(r: Rec, instant: int) {
    (r.validFrom.None? || r.validFrom.value <= instant) && (r.validTo.None? || r.validTo.value > instant)
  }

  predicate IsCurrent(r: Rec, o: Observation) {
    IsActive(r) && FactMatches(r, o.subject, o.relation) && ValidAt(r, o.time)
  }

  /** The latest added record that holds the fact at the observed instant, or -1. */
  function CurrentFact(view: View, o: Observation): (index: int)
    ensures -1 <= index < |view|
    ensures index >= 0 ==> IsCurrent(view[index], o)
    ensures forall i :: index < i < |view| ==> !IsCurrent(view[i], o)
  {
    if view == [] then -1
    else if IsCurrent(view[|view| - 1], o) then |view| - 1
    else CurrentFact(view[..|view| - 1], o)
  }

  function Successor(o: Observation): Rec {
    Rec(o.newId, Semantic, FactTags(o.subject, o.relation, o.value), [o.subject], false, true, o.confidence, 1.0, 1.0,
        0, [], [], [], None, Some(o.time), Some(o.time), Some(o.time), None, Some("keyed_fact"))
  }

  function Confirmed(r: Rec, time: int): Rec {
    if r.lastObserved.None? || r.lastObserved.value < time then r.(lastObserved := Some(time)) else r
  }

  /** The store after one observation; it is left as it was when the new record cannot be added. */
  function Observe(view: View, o: Observation): View {
    var current := CurrentFact(view, o);
    if current >= 0 && "value:" + o.value in view[current].tags then
      view[current := Confirmed(view[current], o.time)]
    else
      match Added(view, Successor(o))
      case Err(_) => view
      case Ok(longer) => if current < 0 then longer else longer[current := longer[current].(validTo := Some(o.time))]
  }

  method FindCurrent(store: Store, o: Observation) returns (current: int)
    requires store.Valid()
    ensures current == CurrentFact(store.View(), o)
  {
    hide IsCurrent;
    ghost var view := store.View();
    current := |store.records| - 1;
    assert view[..|view|] == view;
    while current >= 0 && !IsCurrent(store.records[current].State(), o)
      invariant -1 <= current < |store.records|
      invariant CurrentFact(view[..current + 1], o) == CurrentFact(view, o)
    {
      assert view[..current + 1][..current] == view[..current];
      current := current - 1;
    }
    assert current == -1 ==> view[..0] == [];
  }

  lemma ConfirmedIsCurrent(r: Rec, o: Observation)
    requires IsCurrent(r, o)
    ensures IsCurrent(Confirmed(r, o.time), o)
  {
  }

  lemma SuccessorIsCurrent(o: Observation)
    ensures IsCurrent(Successor(o), o) && "value:" + o.value in Successor(o).tags && Successor(o).id == o.newId
  {
    var tags := FactTags(o.subject, o.relation, o.value);
    assert tags[1] == "subject:" + o.subject && tags[2] == "relation:" + o.relation && tags[3] == "value:" + o.value;
  }

  method ObserveFact(store: Store, o: Observation) returns (r: Result<string, StoreError>)
    requires store.Valid()
    modifies store, store.records
    ensures store.Valid() && store.View() == Observe(old(store.View()), o)
    ensures r.Err? ==> store.View() == old(store.View())
    ensures r.Ok? ==> exists i :: 0 <= i < |store.View()| && store.View()[i].id == r.value
                                  && IsCurrent(store.View()[i], o) && "value:" + o.value in store.View()[i].tags
  {
    hide IsCurrent, IndexOf, FactTags, Successor, UniqueIds, CurrentFact;
    ghost var before := store.View();
    var current := FindCurrent(store, o);
    if current >= 0 && "value:" + o.value in store.records[current].tags {
      var record := store.records[current];
      ConfirmedIsCurrent(before[current], o);
      if record.lastObserved.None? || record.lastObserved.value < o.time {
        store.SetLastObserved(current, o.time);
      }
      assert store.View() == before[current := Confirmed(before[current], o.time)];
      assert store.View()[current].id == record.id;
      return Ok(record.id);
    }
    var error := store.Add(Successor(o));
    if error.Some? {
      return Err(error.value);
    }
    SuccessorIsCurrent(o);
    if current >= 0 {
      store.SetValidTo(current, o.time);
    }
    assert store.View()[|before|] == Successor(o);
    return Ok(o.newId);
  }

  // ---- a plain log, read directly ----

  datatype Entry = Entry(value: string, time: int)

  /** The observations of one key, in order. */
  function LogOf(log: seq<Observation>, subject: string, relation: string): seq<Entry> {
    if log == [] then []
    else
      var o := log[|log| - 1];
      LogOf(log[..|log| - 1], subject, relation)
      + if o.subject == subject && o.relation == relation then [Entry(o.value, o.time)] else []
  }

  ghost predicate Chronological(log: seq<Entry>) {
    forall i, j :: 0 <= i < j < |log| ==> log[i].time <= log[j].time
  }

  /** The value of the last observation at or before an instant. */
  function ValueAt(log: seq<Entry>, instant: int): Option<string> {
    if log == [] then None
    else if log[|log| - 1].time <= instant then Some(log[|log| - 1].value)
    else ValueAt(log[..|log| - 1], instant)
  }

  // ---- the history of one key ----

  datatype Episode = Episode(value: string, from: int, until: Option<int>, confirmed: int)

  predicate Holds(e: Episode, instant: int) {
    e.from <= instant && (e.until.None? || e.until.value > instant)
  }

  /** A repeated value confirms the open episode; a new one closes it and opens its own. */
  function Extend(history: seq<Episode>, e: Entry): seq<Episode> {
    var fresh' := Episode(e.value, e.time, None, e.time);
    if history == [] then [fresh']
    else
      var n := |history| - 1;
      if history[n].value == e.value then
        history[n := history[n].(confirmed := Max(history[n].confirmed, e.time))]
      else history[n := history[n].(until := Some(e.time))] + [fresh']
  }

  function Episodes(log: seq<Entry>): seq<Episode> {
    if log == [] then [] else Extend(Episodes(log[..|log| - 1]), log[|log| - 1])
  }

  /** Contiguous half-open intervals in time order, the last one open, no value twice in a row. */
  ghost predicate Contiguous(h: seq<Episode>) {
    && (forall i :: 0 <= i < |h| - 1 ==> h[i].until == Some(h[i + 1].from) && h[i].value != h[i + 1].value)
    && (h != [] ==> h[|h| - 1].until == None)
    && (forall i, j :: 0 <= i < j < |h| ==> h[i].from <= h[j].from)
  }

  ghost predicate Bounded(h: seq<Episode>, time: int) {
    forall i :: 0 <= i < |h| ==> h[i].from <= h[i].confirmed <= time
  }

  lemma {:induction false} EpisodesContiguous(log: seq<Entry>)
    requires Chronological(log)
    ensures Contiguous(Episodes(log)) && (log == [] <==> Episodes(log) == [])
    ensures log != [] ==>
      && Bounded(Episodes(log), log[|log| - 1].time)
      && Episodes(log)[0].from == log[0].time
      && Episodes(log)[|Episodes(log)| - 1].value == log[|log| - 1].value
      && Episodes(log)[|Episodes(log)| - 1].confirmed == log[|log| - 1].time
  {
    if log != [] {
      var init, e := log[..|log| - 1], log[|log| - 1];
      EpisodesContiguous(init);
      if init != [] {
        assert log[0].time <= init[|init| - 1].time <= e.time;
      }
    }
  }

  /** Exactly one episode holds at any instant from the first observation on. */
  lemma EpisodeAt(h: seq<Episode>, instant: int) returns (i: nat)
    requires Contiguous(h) && h != [] && h[0].from <= instant
    ensures i < |h| && forall j :: 0 <= j < |h| ==> (Holds(h[j], instant) <==> j == i)
  {
    i := 0;
    while i + 1 < |h| && h[i + 1].from <= instant
      invariant i < |h| && h[i].from <= instant
    {
      i := i + 1;
    }
    forall j | 0 <= j < |h| ensures Holds(h[j], instant) <==> j == i {
      if j < i {
        assert h[j].until == Some(h[j + 1].from) && h[j + 1].from <= h[i].from;
      }
      if j > i {
        assert h[i + 1].from <= h[j].from;
      }
      if j == i && i + 1 < |h| {
        assert h[i].until == Some(h[i + 1].from);
      }
    }
  }

  lemma EarlierEnds(h: seq<Episode>, i: nat)
    requires Contiguous(h) && i < |h| - 1
    ensures h[i].until.Some? && h[i].until.value <= h[|h| - 1].from
  {
    assert h[i + 1].from <= h[|h| - 1].from;
  }

  lemma OnlyLastHolds(h: seq<Episode>, i: nat, instant: int)
    requires Contiguous(h) && i < |h| && Holds(h[i], instant) && h[|h| - 1].from <= instant
    ensures i == |h| - 1
  {
    if i < |h| - 1 {
      EarlierEnds(h, i);
    }
  }

  /** The history is a run-length form of the log: whichever episode holds carries the last value observed
      at or before that instant, and before the first observation none holds. */
  lemma {:induction false} EpisodesAnswer(log: seq<Entry>, instant: int, i: nat)
    requires Chronological(log) && i < |Episodes(log)| && Holds(Episodes(log)[i], instant)
    ensures ValueAt(log, instant) == Some(Episodes(log)[i].value)
  {
    var init, e := log[..|log| - 1], log[|log| - 1];
    EpisodesContiguous(log);
    EpisodesContiguous(init);
    var h, g := Episodes(log), Episodes(init);
    if e.time <= instant {
      OnlyLastHolds(h, i, instant);
    } else if init != [] {
      var n := |g| - 1;
      assert |h| > |g| ==> h[n + 1].from == e.time;
      assert Holds(g[i], instant);
      EpisodesAnswer(init, instant, i);
    }
  }

  // ---- the store refines the history ----

  predicate Represents(r: Rec, subject: string, relation: string, e: Episode) {
    && IsActive(r) && r.eventType == Some("keyed_fact") && r.tags == FactTags(subject, relation, e.value)
    && r.validFrom == Some(e.from) && r.validTo == e.until && r.lastObserved == Some(e.confirmed)
  }

  function FactRecords(view: View, subject: string, relation: string): seq<Rec> {
    Filter((r: Rec) => FactMatches(r, subject, relation), view)
  }

  ghost predicate StoresHistory(view: View, subject: string, relation: string, h: seq<Episode>) {
    var facts := FactRecords(view, subject, relation);
    |facts| == |h| && forall i :: 0 <= i < |h| ==> Represents(facts[i], subject, relation, h[i])
  }

  /** Every keyed fact in the store was written by an observation. */
  ghost predicate WellFormed(view: View) {
    forall i :: 0 <= i < |view| && view[i].eventType == Some("keyed_fact") ==>
      exists s, r, v :: view[i].tags == FactTags(s, r, v)
  }

  lemma TagsDiffer(x: string, y: string)
    ensures "subject:" + x == "subject:" + y <==> x == y
    ensures "relation:" + x == "relation:" + y <==> x == y
    ensures "value:" + x == "value:" + y <==> x == y
    ensures "subject:" + x != "relation:" + y && "subject:" + x != "value:" + y && "relation:" + x != "value:" + y
    ensures "subject:" + x != "keyed_fact" && "relation:" + x != "keyed_fact" && "value:" + x != "keyed_fact"
  {
    assert ("subject:" + x)[8..] == x && ("subject:" + y)[8..] == y;
    assert ("relation:" + x)[9..] == x && ("relation:" + y)[9..] == y;
    assert ("value:" + x)[6..] == x && ("value:" + y)[6..] == y;
    assert ("subject:" + x)[0] == 's' && ("relation:" + y)[0] == 'r' && ("value:" + y)[0] == 'v';
    assert ("relation:" + x)[0] == 'r' && ("value:" + x)[0] == 'v' && "keyed_fact"[0] == 'k';
  }

  lemma AmongFour(tags: seq<string>, a: string, b: string, c: string, d: string, x: string)
    requires tags == [a, b, c, d]
    ensures x in tags <==> x == a || x == b || x == c || x == d
  {
    assert tags[0] == a && tags[1] == b && tags[2] == c && tags[3] == d;
  }

  lemma TagsOf(s: string, rel: string, v: string, y: string)
    ensures "subject:" + y in FactTags(s, rel, v) <==> y == s
    ensures "relation:" + y in FactTags(s, rel, v) <==> y == rel
    ensures "value:" + y in FactTags(s, rel, v) <==> y == v
  {
    var a, b, c := "subject:" + s, "relation:" + rel, "value:" + v;
    TagsDiffer(y, s);
    TagsDiffer(s, y);
    TagsDiffer(y, rel);
    TagsDiffer(rel, y);
    TagsDiffer(y, v);
    AmongFour(FactTags(s, rel, v), "keyed_fact", a, b, c, "subject:" + y);
    AmongFour(FactTags(s, rel, v), "keyed_fact", a, b, c, "relation:" + y);
    AmongFour(FactTags(s, rel, v), "keyed_fact", a, b, c, "value:" + y);
  }

  /** A record written for one key matches that key and no other, and carries one value. */
  lemma WrittenMatches(r: Rec, s: string, rel: string, v: string, subject: string, relation: string, value: string)
    requires r.eventType == Some("keyed_fact") && r.tags == FactTags(s, rel, v)
    ensures FactMatches(r, subject, relation) <==> s == subject && rel == relation
    ensures "value:" + value in r.tags <==> value == v
  {
    hide FactTags;
    TagsOf(s, rel, v, subject);
    TagsOf(s, rel, v, relation);
    TagsOf(s, rel, v, value);
  }

  lemma FilterAround(p: Rec -> bool, a: seq<Rec>, r: Rec, b: seq<Rec>)
    ensures Filter(p, a + ([r] + b)) == Filter(p, a) + ((if p(r) then [r] else []) + Filter(p, b))
  {
    FilterSplits(p, a, [r] + b);
    FilterSplits(p, [r], b);
  }

  /** Replacing a matching record of the store replaces it in the filtered list, and nothing else. */
  lemma FilterUpdate(view: View, p: Rec -> bool, i: nat, r: Rec) returns (k: nat)
    requires i < |view| && p(view[i]) && p(r)
    ensures k < |Filter(p, view)| && Filter(p, view)[k] == view[i]
    ensures Filter(p, view[i := r]) == Filter(p, view)[k := r]
    ensures (forall j :: i < j < |view| ==> !p(view[j])) ==> k == |Filter(p, view)| - 1
  {
    hide Filter;
    var a, b := view[..i], view[i + 1..];
    assert view == a + ([view[i]] + b) && view[i := r] == a + ([r] + b);
    FilterAround(p, a, view[i], b);
    FilterAround(p, a, r, b);
    k := |Filter(p, a)|;
    if forall j :: i < j < |view| ==> !p(view[j]) {
      FilterNone(p, b);
    }
  }

  lemma FilterUpdateOther(view: View, p: Rec -> bool, i: nat, r: Rec)
    requires i < |view| && !p(view[i]) && !p(r)
    ensures Filter(p, view[i := r]) == Filter(p, view)
  {
    hide Filter;
    var a, b := view[..i], view[i + 1..];
    assert view == a + ([view[i]] + b) && view[i := r] == a + ([r] + b);
    FilterAround(p, a, view[i], b);
    FilterAround(p, a, r, b);
  }

  lemma {:induction false} LastMatch(p: Rec -> bool, view: View) returns (i: nat)
    requires Filter(p, view) != []
    ensures i < |view| && p(view[i]) && forall j :: i < j < |view| ==> !p(view[j])
  {
    i := |view|;
    while i > 0 && !p(view[i - 1])
      invariant i <= |view| && forall j :: i <= j < |view| ==> !p(view[j])
    {
      i := i - 1;
    }
    if i == 0 {
      FilterNone(p, view);
      assert false;
    }
    i := i - 1;
  }

  // ---- one observation, seen from one key ----

  lemma ObserveKeepsForm(view: View, o: Observation)
    requires WellFormed(view)
    ensures WellFormed(Observe(view, o))
  {
    hide FactMatches, FactTags;
    var next := Observe(view, o);
    forall i | 0 <= i < |next| && next[i].eventType == Some("keyed_fact")
      ensures exists s, r, v :: next[i].tags == FactTags(s, r, v)
    {
      if i < |view| {
        assert next[i].tags == view[i].tags && next[i].eventType == view[i].eventType;
      } else {
        assert next[i].tags == FactTags(o.subject, o.relation, o.value);
      }
    }
  }

  lemma ObserveOtherKey(view: View, o: Observation, subject: string, relation: string)
    requires WellFormed(view) && !(o.subject == subject && o.relation == relation)
    ensures FactRecords(Observe(view, o), subject, relation) == FactRecords(view, subject, relation)
  {
    hide FactTags, ValidAt;
    var p := (r: Rec) => FactMatches(r, subject, relation);
    var c, successor := CurrentFact(view, o), Successor(o);
    WrittenMatches(successor, o.subject, o.relation, o.value, subject, relation, o.value);
    FilterSplits(p, view, [successor]);
    if c >= 0 {
      var s, r, v :| view[c].tags == FactTags(s, r, v);
      WrittenMatches(view[c], s, r, v, subject, relation, o.value);
      WrittenMatches(view[c], s, r, v, o.subject, o.relation, o.value);
      FilterUpdateOther(view, p, c, Confirmed(view[c], o.time));
      if Added(view, successor).Ok? {
        FilterUpdateOther(view + [successor], p, c, view[c].(validTo := Some(o.time)));
      }
    }
  }

  lemma LastIsOpen(h: seq<Episode>)
    requires Contiguous(h) && h != []
    ensures h[|h| - 1].until == None
  {
  }

  /** Where the open episode of a nonempty history lives: the last matching record, and the current one. */
  lemma OpenRecord(view: View, o: Observation, h: seq<Episode>) returns (i: nat)
    requires Contiguous(h) && Bounded(h, o.time) && h != []
    requires StoresHistory(view, o.subject, o.relation, h)
    ensures i < |view| && i == CurrentFact(view, o) && Represents(view[i], o.subject, o.relation, h[|h| - 1])
    ensures forall j :: i < j < |view| ==> !FactMatches(view[j], o.subject, o.relation)
  {
    hide FactTags, FactMatches, Contiguous;
    var p := (r: Rec) => FactMatches(r, o.subject, o.relation);
    i := LastMatch(p, view);
    var k := FilterUpdate(view, p, i, view[i]);
    LastIsOpen(h);
  }

  lemma ConfirmSameValue(view: View, o: Observation, h: seq<Episode>)
    requires Contiguous(h) && Bounded(h, o.time) && h != [] && h[|h| - 1].value == o.value
    requires StoresHistory(view, o.subject, o.relation, h)
    ensures StoresHistory(Observe(view, o), o.subject, o.relation, Extend(h, Entry(o.value, o.time)))
  {
    hide FactTags, FactMatches, Contiguous, Bounded, Successor;
    var p := (r: Rec) => FactMatches(r, o.subject, o.relation);
    var i := OpenRecord(view, o, h);
    var confirmed := Confirmed(view[i], o.time);
    WrittenMatches(view[i], o.subject, o.relation, o.value, o.subject, o.relation, o.value);
    WrittenMatches(confirmed, o.subject, o.relation, o.value, o.subject, o.relation, o.value);
    var k := FilterUpdate(view, p, i, confirmed);
  }

  /** A new value closes the current record and appends its own. */
  lemma RevokedView(view: View, o: Observation, i: nat)
    requires i < |view| && i == CurrentFact(view, o) && "value:" + o.value !in view[i].tags && IndexOf(view, o.newId) == -1
    ensures Observe(view, o) == view[i := view[i].(validTo := Some(o.time))] + [Successor(o)]
  {
    hide FactTags, CurrentFact;
    assert (view + [Successor(o)])[i := view[i].(validTo := Some(o.time))] == view[i := view[i].(validTo := Some(o.time))] + [Successor(o)];
  }

  lemma RevokeOldValue(view: View, o: Observation, h: seq<Episode>)
    requires Contiguous(h) && Bounded(h, o.time) && h != [] && h[|h| - 1].value != o.value
    requires StoresHistory(view, o.subject, o.relation, h) && IndexOf(view, o.newId) == -1
    ensures StoresHistory(Observe(view, o), o.subject, o.relation, Extend(h, Entry(o.value, o.time)))
  {
    hide FactTags, FactMatches, Contiguous, Bounded, Observe;
    var p := (r: Rec) => FactMatches(r, o.subject, o.relation);
    var i := OpenRecord(view, o, h);
    var last, successor := h[|h| - 1], Successor(o);
    var closed := view[i].(validTo := Some(o.time));
    WrittenMatches(successor, o.subject, o.relation, o.value, o.subject, o.relation, o.value);
    WrittenMatches(view[i], o.subject, o.relation, last.value, o.subject, o.relation, o.value);
    WrittenMatches(closed, o.subject, o.relation, last.value, o.subject, o.relation, o.value);
    RevokedView(view, o, i);
    var k := FilterUpdate(view, p, i, closed);
    FilterSplits(p, view[i := closed], [successor]);
  }

  /** For its own key, one observation extends the stored history as it extends the log's. */
  lemma ObserveSameKey(view: View, o: Observation, h: seq<Episode>)
    requires Contiguous(h) && Bounded(h, o.time)
    requires StoresHistory(view, o.subject, o.relation, h) && IndexOf(view, o.newId) == -1
    ensures StoresHistory(Observe(view, o), o.subject, o.relation, Extend(h, Entry(o.value, o.time)))
  {
    hide FactTags, FactMatches, Contiguous, Bounded;
    if h == [] {
      var p := (r: Rec) => FactMatches(r, o.subject, o.relation);
      WrittenMatches(Successor(o), o.subject, o.relation, o.value, o.subject, o.relation, o.value);
      FilterSplits(p, view, [Successor(o)]);
      FilterMembers(p, view);
      assert forall i :: 0 <= i < |view| && p(view[i]) ==> view[i] in FactRecords(view, o.subject, o.relation);
    } else if h[|h| - 1].value == o.value {
      ConfirmSameValue(view, o, h);
    } else {
      RevokeOldValue(view, o, h);
    }
  }

  // ---- whole runs ----

  function ObserveAll(view: View, log: seq<Observation>): View {
    if log == [] then view else Observe(ObserveAll(view, log[..|log| - 1]), log[|log| - 1])
  }

  /** No facts yet, and ids are never reused. */
  ghost predicate FreshRun(view: View, log: seq<Observation>) {
    && (forall i :: 0 <= i < |view| ==> view[i].eventType != Some("keyed_fact"))
    && (forall i, j :: 0 <= i < |view| && 0 <= j < |log| ==> view[i].id != log[j].newId)
    && (forall i, j :: 0 <= i < j < |log| ==> log[i].newId != log[j].newId)
  }

  lemma ObserveIds(view: View, o: Observation, i: nat)
    requires i < |Observe(view, o)|
    ensures if i < |view| then Observe(view, o)[i].id == view[i].id else Observe(view, o)[i].id == o.newId
  {
    hide CurrentFact;
  }

  lemma {:induction false} RunIds(view: View, log: seq<Observation>, i: nat)
    requires i < |ObserveAll(view, log)|
    ensures (exists j :: 0 <= j < |view| && view[j].id == ObserveAll(view, log)[i].id)
         || (exists j :: 0 <= j < |log| && log[j].newId == ObserveAll(view, log)[i].id)
  {
    hide Observe;
    if log != [] {
      var init, o := log[..|log| - 1], log[|log| - 1];
      ObserveIds(ObserveAll(view, init), o, i);
      if i < |ObserveAll(view, init)| {
        RunIds(view, init, i);
      } else {
        assert log[|log| - 1].newId == ObserveAll(view, log)[i].id;
      }
    } else {
      assert ObserveAll(view, log)[i].id == view[i].id;
    }
  }

  lemma SameFacts(a: View, b: View, subject: string, relation: string, h: seq<Episode>)
    requires FactRecords(a, subject, relation) == FactRecords(b, subject, relation)
    requires StoresHistory(a, subject, relation, h)
    ensures StoresHistory(b, subject, relation, h)
  {
  }

  lemma InitFresh(view: View, log: seq<Observation>)
    requires FreshRun(view, log) && log != []
    ensures FreshRun(view, log[..|log| - 1])
  {
  }

  lemma InitChronological(log: seq<Observation>, subject: string, relation: string)
    requires log != [] && Chronological(LogOf(log, subject, relation))
    ensures Chronological(LogOf(log[..|log| - 1], subject, relation))
  {
    var l, all := LogOf(log[..|log| - 1], subject, relation), LogOf(log, subject, relation);
    assert all[..|l|] == l;
    forall i, j | 0 <= i < j < |l| ensures l[i].time <= l[j].time {
      assert all[i].time <= all[j].time;
    }
  }

  lemma NewIdUnused(view: View, log: seq<Observation>)
    requires FreshRun(view, log) && log != []
    ensures IndexOf(ObserveAll(view, log[..|log| - 1]), log[|log| - 1].newId) == -1
  {
    hide ObserveAll;
    var init, id := log[..|log| - 1], log[|log| - 1].newId;
    var i := IndexOf(ObserveAll(view, init), id);
    if i >= 0 {
      RunIds(view, init, i);
      assert false;
    }
  }

  lemma StillBounded(l: seq<Entry>, e: Entry)
    requires Chronological(l + [e])
    ensures Bounded(Episodes(l), e.time)
  {
    if l != [] {
      assert (l + [e])[|l| - 1].time <= (l + [e])[|l|].time;
      assert Chronological(l) by {
        forall i, j | 0 <= i < j < |l| ensures l[i].time <= l[j].time {
          assert (l + [e])[i].time <= (l + [e])[j].time;
        }
      }
      EpisodesContiguous(l);
    }
  }

  lemma NoFactsYet(view: View, log: seq<Observation>, subject: string, relation: string)
    requires FreshRun(view, log)
    ensures StoresHistory(view, subject, relation, []) && WellFormed(view)
  {
    FilterNone((r: Rec) => FactMatches(r, subject, relation), view);
  }

  /** For any interleaving of keys in which this key's times do not go backwards, the store holds exactly
      the run-length history of the key's own log. */
  lemma {:induction false} StoreRefinesLog(view: View, log: seq<Observation>, subject: string, relation: string)
    requires FreshRun(view, log) && Chronological(LogOf(log, subject, relation))
    ensures WellFormed(ObserveAll(view, log))
    ensures StoresHistory(ObserveAll(view, log), subject, relation, Episodes(LogOf(log, subject, relation)))
  {
    hide Observe, FactMatches, Represents, StoresHistory, WellFormed, FreshRun, Chronological, Extend;
    if log == [] {
      NoFactsYet(view, log, subject, relation);
    } else {
      var init, o := log[..|log| - 1], log[|log| - 1];
      var l, e := LogOf(init, subject, relation), Entry(o.value, o.time);
      var before := ObserveAll(view, init);
      InitFresh(view, log);
      InitChronological(log, subject, relation);
      StoreRefinesLog(view, init, subject, relation);
      ObserveKeepsForm(before, o);
      if o.subject == subject && o.relation == relation {
        assert LogOf(log, subject, relation) == l + [e];
        assert (l + [e])[..|l|] == l;
        NewIdUnused(view, log);
        EpisodesContiguous(l);
        StillBounded(l, e);
        ObserveSameKey(before, o, Episodes(l));
      } else {
        assert LogOf(log, subject, relation) == l;
        ObserveOtherKey(before, o, subject, relation);
        SameFacts(before, Observe(before, o), subject, relation, Episodes(l));
      }
    }
  }

  /** The fact records of a key answer every question about the past: from the first observation on,
      exactly one of them is valid at an instant, and it carries the value last observed by then. */
  lemma FactAtInstant(view: View, log: seq<Observation>, subject: string, relation: string, instant: int) returns (i: nat)
    requires FreshRun(view, log)
    requires var l := LogOf(log, subject, relation); Chronological(l) && l != [] && l[0].time <= instant
    ensures var facts := FactRecords(ObserveAll(view, log), subject, relation);
      && i < |facts|
      && (forall j :: 0 <= j < |facts| ==> (ValidAt(facts[j], instant) <==> j == i))
      && ValueAt(LogOf(log, subject, relation), instant).Some?
      && "value:" + ValueAt(LogOf(log, subject, relation), instant).value in facts[i].tags
  {
    hide FactMatches, FactTags, ObserveAll, Contiguous;
    var l := LogOf(log, subject, relation);
    var h := Episodes(l);
    StoreRefinesLog(view, log, subject, relation);
    EpisodesContiguous(l);
    i := EpisodeAt(h, instant);
    EpisodesAnswer(l, instant, i);
    var facts := FactRecords(ObserveAll(view, log), subject, relation);
    assert Represents(facts[i], subject, relation, h[i]);
    TagsOf(subject, relation, h[i].value, h[i].value);
  }

  /** The stored intervals themselves: contiguous, the last one open, neighbours with different values;
      nothing is valid before the first observation. */
  lemma FactIntervals(view: View, log: seq<Observation>, subject: string, relation: string)
    requires FreshRun(view, log) && Chronological(LogOf(log, subject, relation))
    ensures var facts := FactRecords(ObserveAll(view, log), subject, relation);
      && (forall i :: 0 <= i < |facts| - 1 ==>
            facts[i].validTo.Some? && facts[i].validTo == facts[i + 1].validFrom && facts[i].tags != facts[i + 1].tags)
      && (facts != [] ==> facts[|facts| - 1].validTo == None)
      && (LogOf(log, subject, relation) == [] <==> facts == [])
      && forall i, instant :: 0 <= i < |facts| && instant < LogOf(log, subject, relation)[0].time ==> !ValidAt(facts[i], instant)
  {
    hide FactMatches, FactTags, ObserveAll;
    var l := LogOf(log, subject, relation);
    var h := Episodes(l);
    StoreRefinesLog(view, log, subject, relation);
    EpisodesContiguous(l);
    var facts := FactRecords(ObserveAll(view, log), subject, relation);
    forall i | 0 <= i < |facts| - 1
      ensures facts[i].validTo.Some? && facts[i].validTo == facts[i + 1].validFrom && facts[i].tags != facts[i + 1].tags
    {
      assert Represents(facts[i], subject, relation, h[i]) && Represents(facts[i + 1], subject, relation, h[i + 1]);
      TagsOf(subject, relation, h[i].value, h[i].value);
      TagsOf(subject, relation, h[i + 1].value, h[i].value);
    }
    forall i | 0 <= i < |facts| ensures facts[i].validFrom == Some(h[i].from) {
      assert Represents(facts[i], subject, relation, h[i]);
    }
  }
}
