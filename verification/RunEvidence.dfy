/** What a run's events entitle it to do to a memory, read off the events themselves, and that consolidation does exactly
    that (core/evolve/consolidate.py). */
module RunEvidence {
  import opened Basics
  import opened MemoryStore
  import opened Consolidation
  import opened TwoStrikes

  // ---- what the events say ----

  ghost predicate FirstContext(events: seq<Event>, i: int) {
    0 <= i < |events| && events[i].ContextCompiled? && forall j :: 0 <= j < i ==> !events[j].ContextCompiled?
  }

  ghost predicate FirstDiagnosis(events: seq<Event>, i: int) {
    0 <= i < |events| && events[i].DiagnosisCompleted? && forall j :: 0 <= j < i ==> !events[j].DiagnosisCompleted?
  }

  ghost predicate FirstVerdict(events: seq<Event>, i: int) {
    0 <= i < |events| && events[i].VerifierResult? && forall j :: 0 <= j < i ==> !events[j].VerifierResult?
  }

  /** The run's first context packet includes the memory. */
  ghost predicate InContext(events: seq<Event>, id: string) {
    id != "" && exists i :: FirstContext(events, i) && id in events[i].included
  }

  ghost predicate HasDiagnosis(events: seq<Event>) {
    exists i :: FirstDiagnosis(events, i)
  }

  ghost predicate FindsRoot(events: seq<Event>) {
    exists i :: FirstDiagnosis(events, i) && events[i].rootKey != ""
  }

  ghost predicate PassesVerifier(events: seq<Event>) {
    exists i :: FirstVerdict(events, i) && events[i].passed
  }

  /** An event that says the memory affected the run: a confirmed hypothesis, or an executed shortcut. */
  ghost predicate Uses(e: Event, id: string) {
    || (e.MemoryResolved? && e.memoryId == id)
    || (e.MemoryAttributed? && Attribution(id, "procedural_shortcut") in e.items)
  }

  /** An event that attributes something to the memory at all. */
  ghost predicate Names(e: Event, id: string) {
    || (e.MemoryResolved? && e.memoryId == id)
    || (e.MemoryAttributed? && (id in e.memoryIds || exists a :: a in e.items && a.memoryId == id))
  }

  ghost predicate Produces(e: Event, evidenceId: string) {
    e.ToolCalled? && !e.blocked && evidenceId in e.evidenceIds
  }

  /** Evidence against a root: produced by a tool call that was not blocked, and cited by the diagnosis. */
  ghost predicate Counters(t: Trace, row: EvidenceRow, root: string) {
    && row.contradicts == root && root != "" && row.id != ""
    && (exists e :: e in t.events && Produces(e, row.id))
    && exists i :: FirstDiagnosis(t.events, i) && row.id in t.events[i].cited
  }

  /** The first root tag with something in it. */
  ghost predicate RootAt(tags: seq<string>, i: int) {
    && 0 <= i < |tags| && "root:" <= tags[i] && |tags[i]| > 5
    && forall j :: 0 <= j < i ==> !("root:" <= tags[j] && |tags[j]| > 5)
  }

  ghost predicate HasRoot(tags: seq<string>, root: string) {
    exists i :: RootAt(tags, i) && tags[i] == "root:" + root
  }

  /** The run contradicts an episodic memory that it included and attributed something to. */
  ghost predicate Refutes(t: Trace, r: Rec) {
    && r.tier == Episodic && InContext(t.events, r.id) && (exists e :: e in t.events && Names(e, r.id))
    && exists row, root :: row in t.evidence && HasRoot(r.tags, root) && Counters(t, row, root)
  }

  /** Credit is due: the run passed, found a root, included the memory and used it. */
  ghost predicate EarnsCredit(t: Trace, id: string) {
    && PassesVerifier(t.events) && FindsRoot(t.events) && InContext(t.events, id)
    && exists e :: e in t.events && Uses(e, id)
  }

  // ---- the same, as the source reads it ----

  lemma {:induction false} ContextIsFirst(events: seq<Event>, id: string)
    ensures id in ContextIds(events) <==> InContext(events, id)
  {
    if events != [] {
      if events[0].ContextCompiled? {
        assert FirstContext(events, 0);
      } else {
        ContextIsFirst(events[1..], id);
        if InContext(events, id) {
          var i :| FirstContext(events, i) && id in events[i].included;
          assert FirstContext(events[1..], i - 1);
        }
        if InContext(events[1..], id) {
          var i :| FirstContext(events[1..], i) && id in events[1..][i].included;
          assert FirstContext(events, i + 1);
        }
      }
    }
  }

  lemma {:induction false} DiagnosisIsFirst(events: seq<Event>)
    ensures Diagnosis(events).Some? <==> HasDiagnosis(events)
    ensures forall i :: FirstDiagnosis(events, i) ==> Diagnosis(events) == Some(events[i])
  {
    if events != [] {
      if events[0].DiagnosisCompleted? {
        assert FirstDiagnosis(events, 0);
      } else {
        DiagnosisIsFirst(events[1..]);
        forall i | FirstDiagnosis(events, i) ensures Diagnosis(events) == Some(events[i]) {
          assert FirstDiagnosis(events[1..], i - 1);
        }
        if HasDiagnosis(events[1..]) {
          var i :| FirstDiagnosis(events[1..], i);
          assert FirstDiagnosis(events, i + 1);
        }
      }
    }
  }

  lemma {:induction false} VerdictIsFirst(events: seq<Event>)
    ensures Verified(events) <==> PassesVerifier(events)
  {
    if events != [] {
      if events[0].VerifierResult? {
        assert FirstVerdict(events, 0);
      } else {
        VerdictIsFirst(events[1..]);
        if PassesVerifier(events) {
          var i :| FirstVerdict(events, i) && events[i].passed;
          assert FirstVerdict(events[1..], i - 1);
        }
        if PassesVerifier(events[1..]) {
          var i :| FirstVerdict(events[1..], i) && events[1..][i].passed;
          assert FirstVerdict(events, i + 1);
        }
      }
    }
  }

  lemma {:induction false} ShortcutsAre(items: seq<Attribution>, id: string)
    ensures id in Shortcuts(items) <==> Attribution(id, "procedural_shortcut") in items
    ensures id in MemoryIdsOf(items) <==> exists a :: a in items && a.memoryId == id
  {
    if items != [] {
      ShortcutsAre(items[1..], id);
      assert items == [items[0]] + items[1..];
      assert items[0] in items;
    }
  }

  lemma FirstUse(e: Event, id: string)
    ensures Uses(e, id) <==> id in match e case MemoryAttributed(_, items) => Shortcuts(items) case MemoryResolved(m) => [m] case _ => []
    ensures Names(e, id)
      <==> id in match e case MemoryAttributed(ids, items) => ids + MemoryIdsOf(items) case MemoryResolved(m) => [m] case _ => []
  {
    if e.MemoryAttributed? {
      ShortcutsAre(e.items, id);
    }
  }

  lemma {:induction false} UsedAndNamed(events: seq<Event>, id: string)
    ensures id in Creditable(events) <==> exists e :: e in events && Uses(e, id)
    ensures id in Attributed(events) <==> exists e :: e in events && Names(e, id)
  {
    hide Uses, Names, Shortcuts, MemoryIdsOf;
    if events != [] {
      UsedAndNamed(events[1..], id);
      assert events == [events[0]] + events[1..];
      assert events[0] in events;
      FirstUse(events[0], id);
    }
  }

  lemma {:induction false} ProducedIs(events: seq<Event>, id: string)
    ensures id in Produced(events) <==> exists e :: e in events && Produces(e, id)
  {
    if events != [] {
      ProducedIs(events[1..], id);
      assert events == [events[0]] + events[1..];
      assert events[0] in events;
    }
  }

  lemma {:induction false} RootIsFirst(tags: seq<string>, root: string)
    ensures RootTag(tags) == Some(root) <==> HasRoot(tags, root)
  {
    if tags != [] {
      if "root:" <= tags[0] && |tags[0]| > 5 {
        assert RootAt(tags, 0);
        assert tags[0] == "root:" + tags[0][5..];
        assert ("root:" + root)[5..] == root;
      } else {
        RootIsFirst(tags[1..], root);
        if HasRoot(tags, root) {
          var i :| RootAt(tags, i) && tags[i] == "root:" + root;
          assert RootAt(tags[1..], i - 1);
        }
        if HasRoot(tags[1..], root) {
          var i :| RootAt(tags[1..], i) && tags[1..][i] == "root:" + root;
          assert RootAt(tags, i + 1);
        }
      }
    }
  }

  lemma DiagnosisSays(events: seq<Event>, id: string)
    ensures FindsRoot(events) <==> Diagnosis(events).Some? && Diagnosis(events).value.DiagnosisCompleted? && Diagnosis(events).value.rootKey != ""
    ensures (exists i :: FirstDiagnosis(events, i) && id in events[i].cited)
      <==> Diagnosis(events).Some? && Diagnosis(events).value.DiagnosisCompleted? && id in Diagnosis(events).value.cited
  {
    hide Diagnosis;
    DiagnosisIsFirst(events);
    if HasDiagnosis(events) {
      var i :| FirstDiagnosis(events, i);
      assert Diagnosis(events) == Some(events[i]);
    }
  }

  lemma CountersAre(t: Trace, row: EvidenceRow, root: string)
    ensures Counters(t, row, root) <==>
      && row.contradicts == root && root != "" && row.id != "" && row.id in Produced(t.events)
      && Diagnosis(t.events).Some? && Diagnosis(t.events).value.DiagnosisCompleted? && row.id in Diagnosis(t.events).value.cited
  {
    hide Diagnosis, Produced, Produces, FirstDiagnosis;
    DiagnosisSays(t.events, row.id);
    ProducedIs(t.events, row.id);
  }

  lemma ContradictsIs(t: Trace, root: string)
    ensures Contradicts(t, root) <==> exists row :: row in t.evidence && Counters(t, row, root)
  {
    hide Diagnosis, Produced, Counters;
    forall row ensures Counters(t, row, root) <==>
      && row.contradicts == root && root != "" && row.id != "" && row.id in Produced(t.events)
      && Diagnosis(t.events).Some? && Diagnosis(t.events).value.DiagnosisCompleted? && row.id in Diagnosis(t.events).value.cited
    {
      CountersAre(t, row, root);
    }
    if row :| row in t.evidence && Counters(t, row, root) {
      var k :| 0 <= k < |t.evidence| && t.evidence[k] == row;
    }
    if Contradicts(t, root) {
      var k :| 0 <= k < |t.evidence| && t.evidence[k].contradicts == root
        && t.evidence[k].id != "" && t.evidence[k].id in Produced(t.events) && t.evidence[k].id in Diagnosis(t.events).value.cited;
      assert t.evidence[k] in t.evidence;
    }
  }

  lemma EmptyNotInContext(events: seq<Event>)
    ensures !InContext(events, "")
  {
  }

  /** Contradiction is what the events and the record's own fields say. */
  lemma ContradictionIs(t: Trace, r: Rec)
    ensures IsContradicted(t, r) <==> Refutes(t, r)
  {
    hide ContextIds, Attributed, RootTag, HasRoot, InContext, Names, Contradicts, Counters;
    ContextIsFirst(t.events, r.id);
    UsedAndNamed(t.events, r.id);
    EmptyNotInContext(t.events);
    forall root ensures RootTag(r.tags) == Some(root) <==> HasRoot(r.tags, root) {
      RootIsFirst(r.tags, root);
    }
    forall root ensures Contradicts(t, root) <==> exists row :: row in t.evidence && Counters(t, row, root) {
      ContradictsIs(t, root);
    }
  }

  /** Counting accesses leaves the evidence against a record alone. */
  lemma CountedIsRefuted(t: Trace, r: Rec)
    ensures Refutes(t, AfterCount(t, r)) <==> Refutes(t, r)
  {
    hide ContextIds, HasRoot, InContext, Names, Counters;
  }

  lemma CreditIs(t: Trace, id: string)
    ensures Passed(t) && id in ContextIds(t.events) && id in UniqueStrings(Creditable(t.events)) <==> EarnsCredit(t, id)
  {
    hide ContextIds, Creditable, Diagnosis, Verified, InContext, Uses, PassesVerifier, FindsRoot;
    ContextIsFirst(t.events, id);
    UsedAndNamed(t.events, id);
    EmptyNotInContext(t.events);
    DiagnosisSays(t.events, id);
    VerdictIsFirst(t.events);
  }

  // ---- what consolidation does with it ----

  /** The run's access is counted. */
  ghost predicate IsVisited(t: Trace, before: Rec) {
    InContext(t.events, before.id) && !before.quarantined && (t.id != "" ==> "access:" + t.id !in before.traces)
  }

  /** The run's credit goes to the record; judged is the record as the run's verdict finds it. */
  ghost predicate IsRewarded(t: Trace, judged: Rec, contradicted: bool, added: seq<string>) {
    && EarnsCredit(t, judged.id) && !contradicted && judged.id !in added
    && (t.id != "" ==> "credit:" + t.id !in judged.traces)
  }

  /** The run's strike goes to the record. */
  ghost predicate IsBlamed(t: Trace, judged: Rec, contradicted: bool) {
    contradicted && t.id != "" && !judged.quarantined && "contradiction:" + t.id !in judged.traces
  }

  ghost predicate HasStrike(traces: seq<string>) {
    exists m :: m in traces && "contradiction:" <= m
  }

  function Note(t: Trace, kind: string): seq<string> {
    if t.id == "" then [] else [kind + t.id]
  }

  ghost function AfterVisit(t: Trace, before: Rec): Rec {
    if IsVisited(t, before) then before.(accessCount := before.accessCount + 1, traces := before.traces + Note(t, "access:")) else before
  }

  ghost function AfterReward(t: Trace, judged: Rec, cap: real): Rec {
    judged.(confidence := if judged.confidence + 0.1 < cap then judged.confidence + 0.1 else cap,
            importance := judged.importance + 0.5, strength := 1.0, traces := judged.traces + Note(t, "credit:"))
  }

  ghost function AfterBlame(t: Trace, judged: Rec): Rec {
    var struck := judged.(traces := judged.traces + Note(t, "contradiction:"));
    if HasStrike(judged.traces)
    then struck.(quarantined := true, tags := judged.tags + ["quarantine:repeated_explicit_contradiction"])
    else struck
  }

  lemma EmptyHasNoContext(events: seq<Event>, id: string)
    ensures events == [] ==> !InContext(events, id)
  {
  }

  lemma NoNote(t: Trace, traces: seq<string>)
    ensures t.id == "" ==> traces + Note(t, "access:") == traces + Note(t, "credit:") == traces
  {
  }

  lemma VisitIs(t: Trace, before: Rec)
    ensures AfterCount(t, before) == AfterVisit(t, before)
  {
    hide ContextIds;
    ContextIsFirst(t.events, before.id);
    EmptyHasNoContext(t.events, before.id);
    NoNote(t, before.traces);
  }

  lemma StrikesCount(traces: seq<string>)
    ensures |Filter(IsStrike, traces)| > 0 <==> HasStrike(traces)
  {
    FilterMembers(IsStrike, traces);
    var strikes := Filter(IsStrike, traces);
    if strikes != [] {
      assert strikes[0] in strikes;
    }
    if HasStrike(traces) {
      var m :| m in traces && "contradiction:" <= m;
      assert m in strikes;
    }
  }

  lemma BlameIs(t: Trace, judged: Rec)
    requires t.id != "" && t.events != [] && !judged.quarantined && "contradiction:" + t.id !in judged.traces
    ensures Struck(judged, RunId(t)) == AfterBlame(t, judged)
  {
    hide IsStrike, Filter;
    StrikesCount(judged.traces);
    MarkersDiffer(t.id);
    FilterSplits(IsStrike, judged.traces, [StrikeMarker(t.id)]);
    FilterAll(IsStrike, [StrikeMarker(t.id)]);
    assert "quarantine:" + CONTRADICTED == "quarantine:repeated_explicit_contradiction";
  }

  lemma NoEvents(t: Trace, id: string)
    ensures EarnsCredit(t, id) ==> t.events != []
  {
  }

  lemma VerdictIs(t: Trace, judged: Rec, added: seq<string>, contradicted: bool, cap: real)
    requires contradicted ==> t.events != []
    ensures AfterVerdict(t, judged, added, contradicted, cap)
      == if IsRewarded(t, judged, contradicted, added) then AfterReward(t, judged, cap)
         else if IsBlamed(t, judged, contradicted) then AfterBlame(t, judged) else judged
  {
    hide Passed, ContextIds, Creditable, Strikes, EarnsCredit, HasStrike;
    CreditIs(t, judged.id);
    NoEvents(t, judged.id);
    NoNote(t, judged.traces);
    if IsBlamed(t, judged, contradicted) {
      BlameIs(t, judged);
    }
  }

  lemma RefutesEvents(t: Trace, r: Rec)
    ensures Refutes(t, r) ==> t.events != []
  {
  }

  /** The whole effect of a run on a record, for every store, run and learning: counted once as an access if the run
      included it; credited if the run passed, found a root, included it and used it, unless contradicted or new; struck if
      contradicted, and struck out at the second strike. Otherwise it is left as learning left it. */
  lemma ConsolidationIs(view: View, t: Trace, learned: View, added: seq<string>, cap: real, i: nat)
    requires UniqueIds(view) && i < |view| && i < |learned| && learned[i].id == view[i].id
    ensures i < |CountAccess(view, t)| && CountAccess(view, t)[i] == AfterVisit(t, view[i])
    ensures i < |Consolidated(view, t, learned, added, cap)|
    ensures var after, contradicted := Consolidated(view, t, learned, added, cap)[i], Refutes(t, view[i]);
      if !HasDiagnosis(t.events) then after == AfterVisit(t, view[i])
      else if IsRewarded(t, learned[i], contradicted, added) then after == AfterReward(t, learned[i], cap)
      else if IsBlamed(t, learned[i], contradicted) then after == AfterBlame(t, learned[i])
      else after == learned[i]
  {
    hide AfterCount, AfterVerdict, IsRewarded, IsBlamed, AfterReward, AfterBlame, AfterVisit, Refutes, IsContradicted, ContradictedIds,
         Diagnosis, IndexOf, HasDiagnosis, EarnsCredit;
    ConsolidatedAt(view, t, learned, added, cap, i);
    VisitIs(t, view[i]);
    DiagnosisIsFirst(t.events);
    ContradictionIs(t, AfterCount(t, view[i]));
    CountedIsRefuted(t, view[i]);
    RefutesEvents(t, view[i]);
    VerdictIs(t, learned[i], added, Refutes(t, view[i]), cap);
  }

  lemma NotesDiffer(t: Trace)
    requires t.id != ""
    ensures "credit:" + t.id != "contradiction:" + t.id && "credit:" + t.id != "access:" + t.id
  {
    assert ("credit:" + t.id)[1] == 'r' && ("contradiction:" + t.id)[1] == 'o' && ("access:" + t.id)[0] == 'a';
  }

  /** The run passed, found a root, included the memory and used it; the memory is neither contradicted by the run nor new,
      and has no credit from it yet. */
  ghost predicate IsDue(t: Trace, before: Rec, judged: Rec, added: seq<string>) {
    && PassesVerifier(t.events) && FindsRoot(t.events) && InContext(t.events, judged.id)
    && (exists e :: e in t.events && Uses(e, judged.id))
    && !Refutes(t, before) && judged.id !in added && "credit:" + t.id !in judged.traces
  }

  /** A record gains the run's credit marker exactly if it is credited, and then gains confidence up to the cap, importance
      and full strength; otherwise these stay as learning left them. */
  lemma CreditMarkerGained(view: View, t: Trace, learned: View, added: seq<string>, cap: real, i: nat)
    requires UniqueIds(view) && i < |view| && i < |learned| && learned[i].id == view[i].id && t.id != "" && HasDiagnosis(t.events)
    ensures i < |Consolidated(view, t, learned, added, cap)|
    ensures var after, judged := Consolidated(view, t, learned, added, cap)[i], learned[i];
      var gains := "credit:" + t.id in after.traces && "credit:" + t.id !in judged.traces;
      && (gains <==> IsDue(t, view[i], judged, added))
      && after.confidence == (if !gains then judged.confidence else if judged.confidence + 0.1 < cap then judged.confidence + 0.1 else cap)
      && after.importance == judged.importance + (if gains then 0.5 else 0.0)
      && after.strength == if gains then 1.0 else judged.strength
  {
    hide Consolidated, CountAccess, Refutes, PassesVerifier, FindsRoot, InContext, Uses, HasDiagnosis, HasStrike;
    ConsolidationIs(view, t, learned, added, cap, i);
    NotesDiffer(t);
    assert (learned[i].traces + ["credit:" + t.id])[|learned[i].traces|] == "credit:" + t.id;
  }
}
