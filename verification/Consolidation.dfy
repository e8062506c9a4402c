/** Access, credit and strike bookkeeping of one consolidated run (core/evolve/consolidate.py). */
module Consolidation {
  import opened Basics
  import opened Sorting
  import opened MemoryStore

  // ---- the trace of a run ----

  datatype Attribution = Attribution(memoryId: string, role: string)

  datatype Event =
    | ContextCompiled(included: seq<string>)
    | MemoryAttributed(memoryIds: seq<string>, items: seq<Attribution>)
    | MemoryResolved(memoryId: string)
    | ToolCalled(blocked: bool, evidenceIds: seq<string>)
    | DiagnosisCompleted(rootKey: string, cited: seq<string>)
    | VerifierResult(passed: bool)
    | OtherEvent

  datatype EvidenceRow = EvidenceRow(id: string, contradicts: string)

  /** Events of one run, all under one run id, with the evidence it collected. */
  datatype Trace = Trace(id: string, events: seq<Event>, evidence: seq<EvidenceRow>)

  function RunId(t: Trace): string {
    if t.events == [] then "" else t.id
  }

  /** Distinct nonempty strings, first occurrences in order. */
  function UniqueStrings(values: seq<string>): (r: seq<string>)
    ensures Distinct(r) && forall x :: x in r <==> x in values && x != ""
  {
    if values == [] then []
    else
      var r, v := UniqueStrings(values[..|values| - 1]), values[|values| - 1];
      assert values == values[..|values| - 1] + [v];
      if v == "" || v in r then r else r + [v]
  }

  function ContextIds(events: seq<Event>): seq<string> {
    if events == [] then []
    else if events[0].ContextCompiled? then UniqueStrings(events[0].included)
    else ContextIds(events[1..])
  }

  function MemoryIdsOf(items: seq<Attribution>): seq<string> {
    if items == [] then [] else [items[0].memoryId] + MemoryIdsOf(items[1..])
  }

  function Shortcuts(items: seq<Attribution>): seq<string> {
    if items == [] then []
    else (if items[0].role == "procedural_shortcut" then [items[0].memoryId] else []) + Shortcuts(items[1..])
  }

  /** Every explicit attribution, the older resolved event included. */
  function Attributed(events: seq<Event>): seq<string> {
    if events == [] then []
    else
      (match events[0]
       case MemoryAttributed(ids, items) => ids + MemoryIdsOf(items)
       case MemoryResolved(id) => [id]
       case _ => []) + Attributed(events[1..])
  }

  /** Attributions that affected the run: confirmed hypotheses and executed shortcuts. */
  function Creditable(events: seq<Event>): seq<string> {
    if events == [] then []
    else
      (match events[0]
       case MemoryAttributed(_, items) => Shortcuts(items)
       case MemoryResolved(id) => [id]
       case _ => []) + Creditable(events[1..])
  }

  function Produced(events: seq<Event>): seq<string> {
    if events == [] then []
    else
      (match events[0]
       case ToolCalled(blocked, ids) => if blocked then [] else ids
       case _ => []) + Produced(events[1..])
  }

  function Diagnosis(events: seq<Event>): Option<Event> {
    if events == [] then None
    else if events[0].DiagnosisCompleted? then Some(events[0])
    else Diagnosis(events[1..])
  }

  function Verified(events: seq<Event>): bool {
    if events == [] then false
    else if events[0].VerifierResult? then events[0].passed
    else Verified(events[1..])
  }

  /** A root contradicted by cited evidence that an unblocked tool call of this run produced. */
  predicate Contradicts(t: Trace, root: string) {
    var d := Diagnosis(t.events);
    && d.Some? && d.value.DiagnosisCompleted? && root != ""
    && exists k :: 0 <= k < |t.evidence| && t.evidence[k].contradicts == root
         && t.evidence[k].id != "" && t.evidence[k].id in Produced(t.events) && t.evidence[k].id in d.value.cited
  }

  /** The first nonempty root tag of a record. */
  function RootTag(tags: seq<string>): Option<string> {
    if tags == [] then None
    else if "root:" <= tags[0] && |tags[0]| > 5 then Some(tags[0][5..])
    else RootTag(tags[1..])
  }

  // ---- effects on one record ----

  function AccessMarker(id: string): string { "access:" + id }
  function CreditMarker(id: string): string { "credit:" + id }
  function StrikeMarker(id: string): string { "contradiction:" + id }

  predicate IsStrike(trace: string) {
    "contradiction:" <= trace
  }

  function Strikes(r: Rec): nat {
    |Filter(IsStrike, r.traces)|
  }

  function Mark(traces: seq<string>, runId: string, marker: string): seq<string> {
    if runId == "" then traces else traces + [marker]
  }

  function Accessed(r: Rec, runId: string): Rec {
    if r.quarantined || (runId != "" && AccessMarker(runId) in r.traces) then r
    else r.(accessCount := r.accessCount + 1, traces := Mark(r.traces, runId, AccessMarker(runId)))
  }

  function Credited(r: Rec, runId: string, cap: real): Rec {
    if runId != "" && CreditMarker(runId) in r.traces then r
    else r.(confidence := if r.confidence + 0.1 < cap then r.confidence + 0.1 else cap,
            importance := r.importance + 0.5, strength := 1.0,
            traces := Mark(r.traces, runId, CreditMarker(runId)))
  }

  const CONTRADICTED := "repeated_explicit_contradiction"

  function Struck(r: Rec, runId: string): Rec {
    if r.quarantined || runId == "" || StrikeMarker(runId) in r.traces then r
    else
      var marked := r.(traces := r.traces + [StrikeMarker(runId)]);
      if Strikes(marked) >= 2 then Quarantine(marked, CONTRADICTED) else marked
  }

  // ---- effects on the store ----

  /** f applied to the records whose id is listed. */
  function MapIds(view: View, ids: seq<string>, f: Rec -> Rec): (next: View)
    ensures |next| == |view|
    ensures forall i :: 0 <= i < |view| ==> next[i] == if view[i].id in ids then f(view[i]) else view[i]
  {
    seq(|view|, i requires 0 <= i < |view| => if view[i].id in ids then f(view[i]) else view[i])
  }

  function IncludedIn(t: Trace, ids: seq<string>): seq<string> {
    Filter((id: string) => id in ids, ContextIds(t.events))
  }

  /** The memories in context, attributed, episodic, and contradicted by this run. */
  predicate IsContradicted(t: Trace, r: Rec) {
    && r.id in ContextIds(t.events) && r.id in UniqueStrings(Attributed(t.events))
    && r.tier == Episodic && RootTag(r.tags).Some? && Contradicts(t, RootTag(r.tags).value)
  }

  function ContradictedIds(view: View, t: Trace): seq<string> {
    Sort(Filter((id: string) => IndexOf(view, id) >= 0 && IsContradicted(t, view[IndexOf(view, id)]),
                IncludedIn(t, UniqueStrings(Attributed(t.events)))), StringLe)
  }

  function CountAccess(view: View, t: Trace): View {
    var runId := RunId(t);
    MapIds(view, ContextIds(t.events), r => Accessed(r, runId))
  }

  predicate Passed(t: Trace) {
    var d := Diagnosis(t.events);
    Verified(t.events) && d.Some? && d.value.DiagnosisCompleted? && d.value.rootKey != ""
  }

  /** Who is credited: in context, explicitly creditable, not contradicted and not written by this very run. */
  function CreditIds(t: Trace, contradicted: seq<string>, added: seq<string>): seq<string> {
    Filter((id: string) => id !in contradicted && id !in added, IncludedIn(t, UniqueStrings(Creditable(t.events))))
  }

  function AwardCredit(view: View, t: Trace, contradicted: seq<string>, added: seq<string>, cap: real): View {
    var runId := RunId(t);
    if !Passed(t) then view else MapIds(view, CreditIds(t, contradicted, added), r => Credited(r, runId, cap))
  }

  function GiveStrikes(view: View, t: Trace, contradicted: seq<string>): View {
    var runId := RunId(t);
    MapIds(view, contradicted, r => Struck(r, runId))
  }

  /** One consolidation. learned is the store after this run's learning writes, which come between the
      access counts and the credit; added are the ids it created. */
  function Consolidated(view: View, t: Trace, learned: View, added: seq<string>, cap: real): View {
    var counted := CountAccess(view, t);
    if Diagnosis(t.events).None? then counted
    else
      var contradicted := ContradictedIds(counted, t);
      GiveStrikes(AwardCredit(learned, t, contradicted, added, cap), t, contradicted)
  }

  /** A run without learning writes: bookkeeping only. */
  function Bookkept(view: View, t: Trace, cap: real): View {
    Consolidated(view, t, CountAccess(view, t), [], cap)
  }

  // ---- the loops ----

  ghost predicate KeepsIds(f: Rec -> Rec) {
    forall r :: f(r).id == r.id
  }

  /** One turn of a loop over distinct ids: the n-th record is still as it was, and is the next to change. */
  lemma Visit(view: View, ids: seq<string>, n: nat, f: Rec -> Rec)
    requires UniqueIds(view) && Distinct(ids) && n < |ids| && KeepsIds(f)
    ensures var now, k := MapIds(view, ids[..n], f), IndexOf(MapIds(view, ids[..n], f), ids[n]);
      && (k < 0 ==> MapIds(view, ids[..n + 1], f) == now)
      && (k >= 0 ==> MapIds(view, ids[..n + 1], f) == now[k := f(now[k])])
  {
    hide IndexOf;
    assert ids[..n + 1] == ids[..n] + [ids[n]];
    assert forall i :: 0 <= i < n ==> ids[i] != ids[n];
    assert ids[n] !in ids[..n];
    var now := MapIds(view, ids[..n], f);
    var k := IndexOf(now, ids[n]);
    assert forall i :: 0 <= i < |view| ==> now[i].id == view[i].id;
  }

  lemma AccessKeepsIds(runId: string)
    ensures KeepsIds(r => Accessed(r, runId))
  {
  }

  method AccessOne(store: Store, k: nat, runId: string)
    requires store.Valid() && k < |store.records|
    modifies store.records[k]
    ensures store.Valid() && store.View() == old(store.View())[k := Accessed(old(store.View())[k], runId)]
  {
    var record := store.records[k];
    if record.quarantined {
      return;
    }
    if runId != "" && AccessMarker(runId) in record.traces {
      return;
    }
    record.accessCount := record.accessCount + 1;
    if runId != "" {
      record.traces := record.traces + [AccessMarker(runId)];
    }
  }

  lemma MapNone(view: View, ids: seq<string>, f: Rec -> Rec)
    ensures MapIds(view, ids[..0], f) == view
  {
  }

  lemma {:induction false} ContextIdsDistinct(events: seq<Event>)
    ensures Distinct(ContextIds(events)) && forall x :: x in ContextIds(events) ==> x != ""
  {
    if events != [] && !events[0].ContextCompiled? {
      ContextIdsDistinct(events[1..]);
    }
  }

  method CountAccesses(store: Store, t: Trace)
    requires store.Valid()
    modifies store.records
    ensures store.Valid() && store.View() == CountAccess(old(store.View()), t)
  {
    hide IndexOf, UniqueIds, ContextIds, Accessed, MapIds, KeepsIds;
    var included, runId := ContextIds(t.events), RunId(t);
    ContextIdsDistinct(t.events);
    AccessKeepsIds(runId);
    ghost var view, f := store.View(), r => Accessed(r, runId);
    MapNone(view, included, f);
    for n := 0 to |included|
      invariant store.Valid() && store.View() == MapIds(view, included[..n], f)
    {
      Visit(view, included, n, f);
      var k := store.Get(included[n]);
      if k >= 0 {
        AccessOne(store, k, runId);
      }
    }
    assert included[..|included|] == included;
  }

  lemma {:induction false} FilterDistinct(p: string -> bool, s: seq<string>)
    requires Distinct(s)
    ensures Distinct(Filter(p, s))
  {
    if s != [] {
      FilterDistinct(p, s[1..]);
      FilterMembers(p, s[1..]);
      assert forall i :: 0 < i < |s| ==> s[i] == s[1..][i - 1];
      assert s[0] !in s[1..];
      var rest := Filter(p, s[1..]);
      assert forall i :: 0 <= i < |rest| ==> rest[i] in rest;
      assert forall i :: 0 < i <= |rest| ==> ([s[0]] + rest)[i] == rest[i - 1];
    }
  }

  lemma CreditKeepsIds(runId: string, cap: real)
    ensures KeepsIds(r => Credited(r, runId, cap))
  {
  }

  method CreditOne(store: Store, k: nat, runId: string, cap: real)
    requires store.Valid() && k < |store.records|
    modifies store.records[k]
    ensures store.Valid() && store.View() == old(store.View())[k := Credited(old(store.View())[k], runId, cap)]
  {
    hide CreditMarker;
    var record := store.records[k];
    ghost var before := store.View();
    if runId == "" || CreditMarker(runId) !in record.traces {
      record.confidence := if record.confidence + 0.1 < cap then record.confidence + 0.1 else cap;
      record.importance := record.importance + 0.5;
      record.strength := 1.0;
      if runId != "" {
        record.traces := record.traces + [CreditMarker(runId)];
      }
    }
    assert record.State() == Credited(before[k], runId, cap);
  }

  lemma CreditIdsDistinct(t: Trace, contradicted: seq<string>, added: seq<string>)
    ensures Distinct(CreditIds(t, contradicted, added))
  {
    ContextIdsDistinct(t.events);
    FilterDistinct((id: string) => id in UniqueStrings(Creditable(t.events)), ContextIds(t.events));
    FilterDistinct((id: string) => id !in contradicted && id !in added, IncludedIn(t, UniqueStrings(Creditable(t.events))));
  }

  method AwardCredits(store: Store, t: Trace, contradicted: seq<string>, added: seq<string>, cap: real)
    requires store.Valid()
    modifies store.records
    ensures store.Valid() && store.View() == AwardCredit(old(store.View()), t, contradicted, added, cap)
  {
    hide IndexOf, UniqueIds, CreditIds, Credited, MapIds, KeepsIds;
    if !Passed(t) {
      return;
    }
    var ids, runId := CreditIds(t, contradicted, added), RunId(t);
    CreditIdsDistinct(t, contradicted, added);
    CreditKeepsIds(runId, cap);
    ghost var view, f := store.View(), r => Credited(r, runId, cap);
    MapNone(view, ids, f);
    for n := 0 to |ids|
      invariant store.Valid() && store.View() == MapIds(view, ids[..n], f)
    {
      Visit(view, ids, n, f);
      var k := store.Get(ids[n]);
      if k >= 0 {
        CreditOne(store, k, runId, cap);
      }
    }
    assert ids[..|ids|] == ids;
  }

  lemma StrikeKeepsIds(runId: string)
    ensures KeepsIds(r => Struck(r, runId))
  {
    hide Strikes;
  }

  method StrikeOne(store: Store, k: nat, runId: string)
    requires store.Valid() && k < |store.records|
    modifies store.records[k]
    ensures store.Valid() && store.View() == old(store.View())[k := Struck(old(store.View())[k], runId)]
  {
    hide Strikes;
    if store.records[k].quarantined || runId == "" || StrikeMarker(runId) in store.records[k].traces {
      return;
    }
    store.records[k].traces := store.records[k].traces + [StrikeMarker(runId)];
    if Strikes(store.records[k].State()) >= 2 {
      store.QuarantineAt(k, CONTRADICTED);
    }
  }

  method Strike(store: Store, t: Trace, contradicted: seq<string>)
    requires store.Valid() && Distinct(contradicted)
    modifies store.records
    ensures store.Valid() && store.View() == GiveStrikes(old(store.View()), t, contradicted)
  {
    hide IndexOf, UniqueIds, Strikes, Struck, MapIds, KeepsIds;
    var runId := RunId(t);
    StrikeKeepsIds(runId);
    ghost var view, f := store.View(), r => Struck(r, runId);
    MapNone(view, contradicted, f);
    for n := 0 to |contradicted|
      invariant store.Valid() && store.View() == MapIds(view, contradicted[..n], f)
    {
      Visit(view, contradicted, n, f);
      var k := store.Get(contradicted[n]);
      if k >= 0 {
        StrikeOne(store, k, runId);
      }
    }
    assert contradicted[..|contradicted|] == contradicted;
  }

  lemma ContradictedDistinct(view: View, t: Trace)
    ensures Distinct(ContradictedIds(view, t))
    ensures forall id :: id in ContradictedIds(view, t) <==>
      IndexOf(view, id) >= 0 && IsContradicted(t, view[IndexOf(view, id)])
  {
    hide IndexOf, Contradicts, RootTag, Attributed;
    var attributed := UniqueStrings(Attributed(t.events));
    var mine := (id: string) => IndexOf(view, id) >= 0 && IsContradicted(t, view[IndexOf(view, id)]);
    var ids := IncludedIn(t, attributed);
    ContextIdsDistinct(t.events);
    FilterDistinct((id: string) => id in attributed, ContextIds(t.events));
    FilterMembers((id: string) => id in attributed, ContextIds(t.events));
    FilterDistinct(mine, ids);
    FilterMembers(mine, ids);
    SortPermutes(Filter(mine, ids), StringLe);
    SortMembers(Filter(mine, ids), StringLe);
    DistinctPermutes(Filter(mine, ids), ContradictedIds(view, t));
    forall id | IndexOf(view, id) >= 0 && IsContradicted(t, view[IndexOf(view, id)]) ensures id in ids {
      assert view[IndexOf(view, id)].id == id;
    }
  }

  /** The bookkeeping of one run, in the source's order. */
  method ConsolidateRun(store: Store, t: Trace, cap: real)
    requires store.Valid()
    modifies store.records
    ensures store.Valid() && store.View() == Bookkept(old(store.View()), t, cap)
  {
    hide CountAccess, AwardCredit, GiveStrikes, ContradictedIds;
    CountAccesses(store, t);
    if Diagnosis(t.events).None? {
      return;
    }
    var contradicted := ContradictedIds(store.View(), t);
    ContradictedDistinct(store.View(), t);
    AwardCredits(store, t, contradicted, [], cap);
    Strike(store, t, contradicted);
  }
}
