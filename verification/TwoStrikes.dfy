/** What consolidation guarantees over whole sequences of runs (core/evolve/consolidate.py). */
module TwoStrikes {
  import opened Basics
  import opened MemoryStore
  import opened Consolidation

  // ---- one record through one run ----

  /** The effect of a run on one record; between is the record after the run's learning writes. */
  function AfterCount(t: Trace, r: Rec): Rec {
    if r.id in ContextIds(t.events) then Accessed(r, RunId(t)) else r
  }

  predicate IsCredited(t: Trace, r: Rec, added: seq<string>, contradicted: bool) {
    && Passed(t) && r.id in ContextIds(t.events) && r.id in UniqueStrings(Creditable(t.events))
    && !contradicted && r.id !in added
  }

  function AfterVerdict(t: Trace, between: Rec, added: seq<string>, contradicted: bool, cap: real): Rec {
    var credited := if IsCredited(t, between, added, contradicted) then Credited(between, RunId(t), cap) else between;
    if contradicted then Struck(credited, RunId(t)) else credited
  }

  lemma CountKeepsIds(view: View, t: Trace, i: nat)
    requires UniqueIds(view) && i < |view|
    ensures CountAccess(view, t)[i].id == view[i].id
    ensures IndexOf(CountAccess(view, t), view[i].id) == i
  {
    hide Accessed;
    AccessKeepsIds(RunId(t));
    IndexOfIs(CountAccess(view, t), i);
  }

  /** The store-wide passes act on each record by itself. */
  lemma ConsolidatedAt(view: View, t: Trace, learned: View, added: seq<string>, cap: real, i: nat)
    requires UniqueIds(view) && i < |view| && i < |learned| && learned[i].id == view[i].id
    ensures CountAccess(view, t)[i] == AfterCount(t, view[i])
    ensures Diagnosis(t.events).None? ==> Consolidated(view, t, learned, added, cap)[i] == AfterCount(t, view[i])
    ensures Diagnosis(t.events).Some? ==>
      Consolidated(view, t, learned, added, cap)[i]
      == AfterVerdict(t, learned[i], added, IsContradicted(t, AfterCount(t, view[i])), cap)
  {
    hide IndexOf, IsContradicted, Accessed, Credited, Struck, Passed;
    var runId, counted := RunId(t), CountAccess(view, t);
    if Diagnosis(t.events).Some? {
      var contradicted := ContradictedIds(counted, t);
      CountKeepsIds(view, t, i);
      ContradictedDistinct(counted, t);
      assert learned[i].id in contradicted <==> IsContradicted(t, counted[i]);
      var mine := UniqueStrings(Creditable(t.events));
      FilterMembers((id: string) => id in mine, ContextIds(t.events));
      FilterMembers((id: string) => id !in contradicted && id !in added, IncludedIn(t, mine));
      CreditKeepsIds(runId, cap);
    }
  }

  // ---- markers ----

  lemma MarkersDiffer(id: string)
    ensures !IsStrike(AccessMarker(id)) && !IsStrike(CreditMarker(id)) && IsStrike(StrikeMarker(id))
  {
    assert AccessMarker(id)[0] == 'a' && CreditMarker(id)[1] == 'r';
    assert "contradiction:"[0] == 'c' && "contradiction:"[1] == 'o';
  }

  lemma StrikeMarkersDiffer(a: string, b: string)
    ensures StrikeMarker(a) == StrikeMarker(b) ==> a == b
  {
    assert StrikeMarker(a)[14..] == a && StrikeMarker(b)[14..] == b;
  }

  ghost predicate NewMarker(before: Rec, after: Rec, marker: string) {
    marker in after.traces && marker !in before.traces
  }

  lemma CreditIsNoStrike(r: Rec, run: string, cap: real)
    ensures !NewMarker(r, Credited(r, run, cap), StrikeMarker(run))
  {
    hide CreditMarker, StrikeMarker, IsStrike;
    MarkersDiffer(run);
  }

  lemma StrikeIsNoCredit(r: Rec, run: string)
    ensures !NewMarker(r, Struck(r, run), CreditMarker(run))
  {
    hide CreditMarker, StrikeMarker, IsStrike;
    MarkersDiffer(run);
  }

  /** No memory gets positive credit and a strike from one run: whatever the store, the run and what it learned, a record
      is credited, struck, or left as learning left it, and never carries both of the run's markers anew. */
  lemma CreditExcludesStrike(view: View, t: Trace, learned: View, added: seq<string>, cap: real, i: nat)
    requires UniqueIds(view) && i < |view| && i < |learned| && learned[i].id == view[i].id && Diagnosis(t.events).Some?
    ensures i < |Consolidated(view, t, learned, added, cap)|
    ensures var after, run := Consolidated(view, t, learned, added, cap)[i], RunId(t);
      && (after == learned[i] || after == Credited(learned[i], run, cap) || after == Struck(learned[i], run))
      && !(NewMarker(learned[i], after, CreditMarker(run)) && NewMarker(learned[i], after, StrikeMarker(run)))
  {
    hide ContextIds, IsContradicted, Passed, CountAccess, Strikes, IndexOf, ContradictedIds, CreditIds;
    ConsolidatedAt(view, t, learned, added, cap, i);
    MarkersDiffer(RunId(t));
    CreditIsNoStrike(learned[i], RunId(t), cap);
    StrikeIsNoCredit(learned[i], RunId(t));
  }

  function StrikeTraces(r: Rec): seq<string> {
    Filter(IsStrike, r.traces)
  }

  const STRUCK_OUT := "quarantine:" + CONTRADICTED

  /** b is a as far as strikes go, except that it may have been retired for another reason. */
  ghost predicate MayRetire(a: Rec, b: Rec) {
    && b.id == a.id && b.tier == a.tier && (a.quarantined ==> b.quarantined)
    && RootTag(b.tags) == RootTag(a.tags) && StrikeTraces(b) == StrikeTraces(a)
    && (STRUCK_OUT in b.tags <==> STRUCK_OUT in a.tags)
  }

  lemma MarkSpares(traces: seq<string>, runId: string, marker: string)
    requires !IsStrike(marker)
    ensures Filter(IsStrike, Mark(traces, runId, marker)) == Filter(IsStrike, traces)
  {
    FilterSplits(IsStrike, traces, [marker]);
    assert Filter(IsStrike, [marker]) == [];
  }

  /** Access and credit leave alone everything a strike depends on. */
  lemma CountSpares(t: Trace, r: Rec)
    ensures MayRetire(r, AfterCount(t, r)) && AfterCount(t, r).quarantined == r.quarantined
  {
    hide ContextIds, IsStrike;
    MarkersDiffer(RunId(t));
    MarkSpares(r.traces, RunId(t), AccessMarker(RunId(t)));
  }

  lemma CreditSpares(r: Rec, runId: string, cap: real)
    ensures MayRetire(r, Credited(r, runId, cap)) && Credited(r, runId, cap).quarantined == r.quarantined
  {
    hide IsStrike;
    MarkersDiffer(runId);
    MarkSpares(r.traces, runId, CreditMarker(runId));
  }

  // ---- sequences of runs ----

  /** A run with the store its learning writes leave behind, and the ids they create. */
  datatype RunStep = RunStep(trace: Trace, learned: View, added: seq<string>)

  function RunAll(view: View, steps: seq<RunStep>, cap: real): View {
    if steps == [] then view
    else
      var s := steps[|steps| - 1];
      Consolidated(RunAll(view, steps[..|steps| - 1], cap), s.trace, s.learned, s.added, cap)
  }

  /** Learning may add records and change others as it likes, but keeps ids unique and leaves the record at
      position x its identity, tier, root and strikes; it may retire it. */
  ghost predicate LearningKeepsStrikes(view: View, steps: seq<RunStep>, cap: real, x: nat)
    decreases |steps|
  {
    && UniqueIds(RunAll(view, steps, cap))
    && (steps != [] ==>
          var init, s := steps[..|steps| - 1], steps[|steps| - 1];
          var before := RunAll(view, init, cap);
          && LearningKeepsStrikes(view, init, cap, x)
          && x < |before| && x < |s.learned|
          && MayRetire(CountAccess(before, s.trace)[x], s.learned[x]))
  }

  /** Learning does not retire the record either. */
  ghost predicate LearningSpares(view: View, steps: seq<RunStep>, cap: real, x: nat)
    decreases |steps|
  {
    && LearningKeepsStrikes(view, steps, cap, x)
    && (steps != [] ==>
          var init, s := steps[..|steps| - 1], steps[|steps| - 1];
          && LearningSpares(view, init, cap, x)
          && x < |RunAll(view, init, cap)| && x < |s.learned|
          && (s.learned[x].quarantined ==> RunAll(view, init, cap)[x].quarantined))
  }

  /** A run accuses a memory: it had it in context, attributed it, and contradicted its root with fresh cited evidence. */
  predicate Accuses(t: Trace, id: string, root: string) {
    && RunId(t) != "" && id in ContextIds(t.events) && id in UniqueStrings(Attributed(t.events)) && Contradicts(t, root)
  }

  /** It does so while the record, as the run's learning leaves it, is live. */
  ghost predicate AccusesLive(s: RunStep, x: nat, id: string, root: string) {
    Accuses(s.trace, id, root) && x < |s.learned| && !s.learned[x].quarantined
  }

  ghost function Accusers(steps: seq<RunStep>, x: nat, id: string, root: string): set<string> {
    set n | 0 <= n < |steps| && AccusesLive(steps[n], x, id, root) :: RunId(steps[n].trace)
  }

  /** The strike markers name the live accusers; at the second one the record is struck out. */
  ghost predicate StrikeState(r: Rec, id: string, root: string, accusers: set<string>) {
    && r.id == id && r.tier == Episodic && RootTag(r.tags) == Some(root)
    && |StrikeTraces(r)| == |accusers| <= 2
    && (forall a :: StrikeMarker(a) in StrikeTraces(r) <==> a in accusers)
    && (STRUCK_OUT in r.tags <==> |accusers| == 2)
    && (|accusers| == 2 ==> r.quarantined)
  }

  lemma SparedState(a: Rec, b: Rec, id: string, root: string, accusers: set<string>)
    requires StrikeState(a, id, root, accusers) && MayRetire(a, b)
    ensures StrikeState(b, id, root, accusers)
  {
    hide RootTag, StrikeTraces, StrikeMarker;
  }

  lemma {:induction false} RootTagKept(tags: seq<string>, extra: string)
    requires RootTag(tags).Some?
    ensures RootTag(tags + [extra]) == RootTag(tags)
  {
    if !("root:" <= tags[0] && |tags[0]| > 5) {
      RootTagKept(tags[1..], extra);
      assert (tags + [extra])[1..] == tags[1..] + [extra];
    }
  }

  /** A strike by a new accuser is counted, if the record is live; one by a known accuser is not. */
  lemma StruckState(r: Rec, id: string, root: string, accusers: set<string>, runId: string)
    requires StrikeState(r, id, root, accusers) && runId != "" && !r.quarantined
    ensures StrikeState(Struck(r, runId), id, root, accusers + {runId})
  {
    hide RootTag, IsStrike;
    var marker := StrikeMarker(runId);
    MarkersDiffer(runId);
    FilterSplits(IsStrike, r.traces, [marker]);
    FilterMembers(IsStrike, r.traces);
    assert Filter(IsStrike, [marker]) == [marker];
    if runId in accusers {
      assert accusers + {runId} == accusers;
    } else {
      assert |accusers + {runId}| == |accusers| + 1;
      var marked := r.(traces := r.traces + [marker]);
      assert StrikeTraces(marked) == StrikeTraces(r) + [marker];
      forall a ensures StrikeMarker(a) in StrikeTraces(marked) <==> a in accusers + {runId} {
        StrikeMarkersDiffer(a, runId);
      }
      RootTagKept(r.tags, STRUCK_OUT);
      assert (r.tags + [STRUCK_OUT])[|r.tags|] == STRUCK_OUT;
    }
  }

  lemma OneMoreRun(steps: seq<RunStep>, x: nat, id: string, root: string)
    requires steps != []
    ensures Accusers(steps, x, id, root)
      == Accusers(steps[..|steps| - 1], x, id, root)
         + (if AccusesLive(steps[|steps| - 1], x, id, root) then {RunId(steps[|steps| - 1].trace)} else {})
  {
    hide AccusesLive;
    var init := steps[..|steps| - 1];
    assert forall n :: 0 <= n < |init| ==> init[n] == steps[n];
    forall a | a in Accusers(init, x, id, root) ensures a in Accusers(steps, x, id, root) {
      var n :| 0 <= n < |init| && AccusesLive(init[n], x, id, root) && RunId(init[n].trace) == a;
      assert AccusesLive(steps[n], x, id, root);
    }
    forall a | a in Accusers(steps, x, id, root)
      ensures a in Accusers(init, x, id, root) || (AccusesLive(steps[|steps| - 1], x, id, root) && a == RunId(steps[|steps| - 1].trace))
    {
      var n :| 0 <= n < |steps| && AccusesLive(steps[n], x, id, root) && RunId(steps[n].trace) == a;
      if n < |init| {
        assert AccusesLive(init[n], x, id, root);
      }
    }
  }

  lemma NoStrike(r: Rec, runId: string)
    requires runId == "" || r.quarantined
    ensures Struck(r, runId) == r
  {
  }

  lemma NoDiagnosis(t: Trace, root: string)
    ensures Diagnosis(t.events).None? ==> !Contradicts(t, root)
  {
  }

  /** One run takes the strike state of a record to the next. */
  lemma RunState(r: Rec, t: Trace, between: Rec, added: seq<string>, cap: real, id: string, root: string, accusers: set<string>)
    requires StrikeState(r, id, root, accusers) && MayRetire(AfterCount(t, r), between)
    ensures Diagnosis(t.events).None? ==> StrikeState(AfterCount(t, r), id, root, accusers) && !Accuses(t, id, root)
    ensures Diagnosis(t.events).Some? ==>
      StrikeState(AfterVerdict(t, between, added, IsContradicted(t, AfterCount(t, r)), cap), id, root,
                  accusers + if Accuses(t, id, root) && !between.quarantined then {RunId(t)} else {})
  {
    hide RootTag, IsStrike, StrikeTraces, Credited, Struck, Contradicts, StrikeMarker;
    CountSpares(t, r);
    var counted := AfterCount(t, r);
    SparedState(r, counted, id, root, accusers);
    SparedState(counted, between, id, root, accusers);
    NoDiagnosis(t, root);
    if Diagnosis(t.events).Some? {
      var contradicted := IsContradicted(t, counted);
      CreditSpares(between, RunId(t), cap);
      SparedState(between, Credited(between, RunId(t), cap), id, root, accusers);
      assert accusers + {} == accusers;
      if contradicted {
        if RunId(t) == "" || between.quarantined {
          NoStrike(between, RunId(t));
        } else {
          StruckState(between, id, root, accusers, RunId(t));
        }
      }
    }
  }

  lemma SameIdentity(a: Rec, b: Rec)
    requires MayRetire(a, b)
    ensures a.id == b.id
  {
  }

  lemma CountIdentity(t: Trace, view: View, x: nat)
    requires x < |view|
    ensures |CountAccess(view, t)| == |view| && CountAccess(view, t)[x].id == view[x].id
  {
  }

  lemma LengthKept(view: View, s: RunStep, cap: real)
    ensures |Consolidated(view, s.trace, s.learned, s.added, cap)|
      == if Diagnosis(s.trace.events).None? then |view| else |s.learned|
  {
  }

  /** Over every sequence of runs, the record's strikes are its live accusers. */
  lemma {:induction false} StateOverRuns(view: View, steps: seq<RunStep>, cap: real, x: nat, root: string)
    requires LearningKeepsStrikes(view, steps, cap, x) && x < |view|
    requires StrikeState(view[x], view[x].id, root, {})
    ensures x < |RunAll(view, steps, cap)|
    ensures StrikeState(RunAll(view, steps, cap)[x], view[x].id, root, Accusers(steps, x, view[x].id, root))
  {
    hide StrikeState, Consolidated, CountAccess, IsContradicted, AfterCount, AfterVerdict, MayRetire, Accuses, UniqueIds;
    var id := view[x].id;
    if steps == [] {
      assert Accusers(steps, x, id, root) == {};
    } else {
      var init, s := steps[..|steps| - 1], steps[|steps| - 1];
      var before := RunAll(view, init, cap);
      StateOverRuns(view, init, cap, x, root);
      OneMoreRun(steps, x, id, root);
      LengthKept(before, s, cap);
      CountIdentity(s.trace, before, x);
      SameIdentity(CountAccess(before, s.trace)[x], s.learned[x]);
      ConsolidatedAt(before, s.trace, s.learned, s.added, cap, x);
      RunState(before[x], s.trace, s.learned[x], s.added, cap, id, root, Accusers(init, x, id, root));
      assert Accusers(init, x, id, root) + {} == Accusers(init, x, id, root);
    }
  }

  ghost predicate TwoLiveAccusers(steps: seq<RunStep>, x: nat, id: string, root: string) {
    exists m, n :: 0 <= m < |steps| && 0 <= n < |steps| && RunId(steps[m].trace) != RunId(steps[n].trace)
      && AccusesLive(steps[m], x, id, root) && AccusesLive(steps[n], x, id, root)
  }

  ghost predicate TwoAccusers(steps: seq<RunStep>, id: string, root: string) {
    exists m, n :: 0 <= m < |steps| && 0 <= n < |steps| && RunId(steps[m].trace) != RunId(steps[n].trace)
      && Accuses(steps[m].trace, id, root) && Accuses(steps[n].trace, id, root)
  }

  lemma TwoElements(s: set<string>, a: string, b: string)
    requires a in s && b in s && a != b
    ensures |s| >= 2
  {
    assert s == {a, b} + (s - {a, b});
  }

  lemma AtLeastTwo(s: set<string>) returns (a: string, b: string)
    requires |s| >= 2
    ensures a in s && b in s && a != b
  {
    if forall x :: x !in s {
      assert false;
    }
    a :| a in s;
    var rest := s - {a};
    assert |rest| == |s| - 1;
    if forall x :: x !in rest {
      assert false;
    }
    b :| b in rest;
  }

  lemma AccuserCount(steps: seq<RunStep>, x: nat, id: string, root: string)
    ensures |Accusers(steps, x, id, root)| >= 2 <==> TwoLiveAccusers(steps, x, id, root)
  {
    hide AccusesLive;
    var s := Accusers(steps, x, id, root);
    if |s| >= 2 {
      var a, b := AtLeastTwo(s);
      var m :| 0 <= m < |steps| && AccusesLive(steps[m], x, id, root) && RunId(steps[m].trace) == a;
      var n :| 0 <= n < |steps| && AccusesLive(steps[n], x, id, root) && RunId(steps[n].trace) == b;
    }
    if TwoLiveAccusers(steps, x, id, root) {
      var m, n :| 0 <= m < |steps| && 0 <= n < |steps| && RunId(steps[m].trace) != RunId(steps[n].trace)
        && AccusesLive(steps[m], x, id, root) && AccusesLive(steps[n], x, id, root);
      TwoElements(s, RunId(steps[m].trace), RunId(steps[n].trace));
    }
  }

  /** Two strikes: over any sequence of runs, whatever they learn besides and even if they retire the record for
      another reason, an episodic memory without strikes is struck out exactly when two runs with different ids accused
      it while it was live; and then it is quarantined. Replaying a run, or any number of runs under one id, never adds
      up to two. */
  lemma StruckOutIffTwoLiveAccusers(view: View, steps: seq<RunStep>, cap: real, x: nat, root: string)
    requires x < |view| && LearningKeepsStrikes(view, steps, cap, x)
    requires view[x].tier == Episodic && RootTag(view[x].tags) == Some(root) && STRUCK_OUT !in view[x].tags
    requires StrikeTraces(view[x]) == []
    ensures x < |RunAll(view, steps, cap)|
    ensures STRUCK_OUT in RunAll(view, steps, cap)[x].tags <==> TwoLiveAccusers(steps, x, view[x].id, root)
    ensures STRUCK_OUT in RunAll(view, steps, cap)[x].tags ==> RunAll(view, steps, cap)[x].quarantined
  {
    hide RunAll, RootTag, StrikeTraces, LearningKeepsStrikes, TwoLiveAccusers, Accusers;
    StateOverRuns(view, steps, cap, x, root);
    AccuserCount(steps, x, view[x].id, root);
  }

  lemma VerdictStrikes(t: Trace, between: Rec, added: seq<string>, contradicted: bool, cap: real)
    requires !between.quarantined
    ensures var after := AfterVerdict(t, between, added, contradicted, cap); after.quarantined ==> |StrikeTraces(after)| >= 2
  {
    hide IsCredited, IsStrike, CreditMarker;
  }

  lemma StateBounds(r: Rec, id: string, root: string, accusers: set<string>)
    requires StrikeState(r, id, root, accusers)
    ensures |StrikeTraces(r)| == |accusers| <= 2
  {
  }

  lemma AccusersGrow(steps: seq<RunStep>, x: nat, id: string, root: string)
    requires steps != []
    ensures |Accusers(steps[..|steps| - 1], x, id, root)| <= |Accusers(steps, x, id, root)|
  {
    hide Accusers, AccusesLive;
    OneMoreRun(steps, x, id, root);
    var before, more := Accusers(steps[..|steps| - 1], x, id, root), Accusers(steps, x, id, root);
    assert more == before + (more - before);
  }

  /** As long as learning leaves a record alive, only strikes quarantine it, so every accuser before the second finds it
      live. */
  lemma {:induction false} LiveUntilStruckOut(view: View, steps: seq<RunStep>, cap: real, x: nat, root: string)
    requires x < |view| && LearningSpares(view, steps, cap, x) && !view[x].quarantined
    requires StrikeState(view[x], view[x].id, root, {})
    ensures x < |RunAll(view, steps, cap)|
    ensures RunAll(view, steps, cap)[x].quarantined ==> |Accusers(steps, x, view[x].id, root)| == 2
    ensures forall n :: 0 <= n < |steps| && Accuses(steps[n].trace, view[x].id, root) ==>
      AccusesLive(steps[n], x, view[x].id, root) || |Accusers(steps, x, view[x].id, root)| == 2
  {
    hide StrikeState, Consolidated, CountAccess, IsContradicted, AfterVerdict, MayRetire, Accusers, UniqueIds, Accuses, AfterCount;
    var id := view[x].id;
    StateOverRuns(view, steps, cap, x, root);
    if steps != [] {
      var init, s := steps[..|steps| - 1], steps[|steps| - 1];
      var before := RunAll(view, init, cap);
      LiveUntilStruckOut(view, init, cap, x, root);
      AccusersGrow(steps, x, id, root);
      StateBounds(RunAll(view, steps, cap)[x], id, root, Accusers(steps, x, id, root));
      CountIdentity(s.trace, before, x);
      SameIdentity(CountAccess(before, s.trace)[x], s.learned[x]);
      ConsolidatedAt(before, s.trace, s.learned, s.added, cap, x);
      if !before[x].quarantined {
        CountSpares(s.trace, before[x]);
        VerdictStrikes(s.trace, s.learned[x], s.added, IsContradicted(s.trace, AfterCount(s.trace, before[x])), cap);
      }
      assert forall n :: 0 <= n < |init| ==> steps[n] == init[n];
    }
  }

  /** If learning leaves the record alive, it ends quarantined exactly when two runs with different ids accused it. */
  lemma QuarantinedIffTwoAccusers(view: View, steps: seq<RunStep>, cap: real, x: nat, root: string)
    requires x < |view| && LearningSpares(view, steps, cap, x) && !view[x].quarantined
    requires view[x].tier == Episodic && RootTag(view[x].tags) == Some(root) && STRUCK_OUT !in view[x].tags
    requires StrikeTraces(view[x]) == []
    ensures x < |RunAll(view, steps, cap)|
    ensures RunAll(view, steps, cap)[x].quarantined <==> TwoAccusers(steps, view[x].id, root)
    ensures RunAll(view, steps, cap)[x].quarantined ==> STRUCK_OUT in RunAll(view, steps, cap)[x].tags
  {
    hide RunAll, RootTag, StrikeTraces, Accusers, Accuses, StrikeMarker, LearningKeepsStrikes;
    StateOverRuns(view, steps, cap, x, root);
    LiveUntilStruckOut(view, steps, cap, x, root);
    AccuserCount(steps, x, view[x].id, root);
  }

  // ---- replays ----

  lemma {:induction false} RootTagQuarantined(tags: seq<string>)
    ensures RootTag(tags + ["quarantine:" + CONTRADICTED]) == RootTag(tags)
  {
    var extra := "quarantine:" + CONTRADICTED;
    if tags == [] {
      var one := tags + [extra];
      assert one == [extra] && one[1..] == [];
      assert extra[0] == 'q' && "root:"[0] == 'r';
    } else if !("root:" <= tags[0] && |tags[0]| > 5) {
      RootTagQuarantined(tags[1..]);
      assert (tags + [extra])[1..] == tags[1..] + [extra];
    }
  }

  lemma CreditSettles(r: Rec, runId: string, cap: real)
    requires runId != ""
    ensures CreditMarker(runId) in Credited(r, runId, cap).traces
    ensures forall m :: m in r.traces ==> m in Credited(r, runId, cap).traces
  {
    var c := Credited(r, runId, cap);
    if CreditMarker(runId) !in r.traces {
      assert c.traces[|r.traces|] == CreditMarker(runId);
    }
  }

  lemma StrikeSettles(r: Rec, runId: string)
    requires runId != ""
    ensures Struck(r, runId).quarantined || StrikeMarker(runId) in Struck(r, runId).traces
    ensures forall m :: m in r.traces ==> m in Struck(r, runId).traces
    ensures RootTag(Struck(r, runId).tags) == RootTag(r.tags)
    ensures Struck(r, runId).id == r.id && Struck(r, runId).tier == r.tier && (r.quarantined ==> Struck(r, runId).quarantined)
  {
    hide Strikes, RootTag;
    RootTagQuarantined(r.tags);
    if !(r.quarantined || StrikeMarker(runId) in r.traces) {
      assert (r.traces + [StrikeMarker(runId)])[|r.traces|] == StrikeMarker(runId);
    }
  }

  lemma AccessSettles(t: Trace, r: Rec)
    requires RunId(t) != "" && r.id in ContextIds(t.events)
    ensures AfterCount(t, r).quarantined || AccessMarker(RunId(t)) in AfterCount(t, r).traces
  {
    var c := AfterCount(t, r);
    if !r.quarantined && AccessMarker(RunId(t)) !in r.traces {
      assert c.traces[|r.traces|] == AccessMarker(RunId(t));
    }
  }

  /** b is a later state of a: the same identity and root, at least its markers, retired if it was. */
  ghost predicate KeepsMarks(a: Rec, b: Rec) {
    && b.id == a.id && b.tier == a.tier && RootTag(b.tags) == RootTag(a.tags)
    && (a.quarantined ==> b.quarantined) && forall m :: m in a.traces ==> m in b.traces
  }

  /** The record carries every marker that the run could still give it. */
  ghost predicate Settled(t: Trace, added: seq<string>, r: Rec) {
    && (r.id in ContextIds(t.events) ==> r.quarantined || AccessMarker(RunId(t)) in r.traces)
    && (IsCredited(t, r, added, IsContradicted(t, r)) ==> CreditMarker(RunId(t)) in r.traces)
    && (IsContradicted(t, r) ==> r.quarantined || StrikeMarker(RunId(t)) in r.traces)
  }

  lemma SettledKept(t: Trace, added: seq<string>, a: Rec, b: Rec)
    requires Settled(t, added, a) && KeepsMarks(a, b)
    ensures Settled(t, added, b)
  {
    hide ContextIds, Contradicts, RootTag, Passed, AccessMarker, CreditMarker, StrikeMarker;
  }

  lemma CountKeepsMarks(t: Trace, r: Rec)
    ensures KeepsMarks(r, AfterCount(t, r))
  {
    hide ContextIds, RootTag;
  }

  lemma VerdictKeepsMarks(t: Trace, between: Rec, added: seq<string>, contradicted: bool, cap: real)
    ensures KeepsMarks(between, AfterVerdict(t, between, added, contradicted, cap))
  {
    hide ContextIds, IsCredited, RootTag, Strikes;
    var credited := Credited(between, RunId(t), cap);
    RootTagQuarantined(between.tags);
  }

  lemma CreditKeeps(r: Rec, run: string, cap: real)
    ensures KeepsMarks(r, Credited(r, run, cap))
  {
    hide RootTag;
  }

  /** A run settles every record it does not itself add. */
  lemma RunSettles(t: Trace, r: Rec, between: Rec, added: seq<string>, cap: real)
    requires RunId(t) != "" && KeepsMarks(AfterCount(t, r), between)
    ensures Diagnosis(t.events).None? ==> Settled(t, added, AfterCount(t, r))
    ensures Diagnosis(t.events).Some? ==> Settled(t, added, AfterVerdict(t, between, added, IsContradicted(t, AfterCount(t, r)), cap))
  {
    hide ContextIds, Accessed, Struck, Credited, RootTag, Attributed, Creditable, AccessMarker, CreditMarker, StrikeMarker;
    var run, counted := RunId(t), AfterCount(t, r);
    CountKeepsMarks(t, r);
    if r.id in ContextIds(t.events) {
      AccessSettles(t, r);
    }
    if Diagnosis(t.events).Some? {
      var contradicted := IsContradicted(t, counted);
      var credited := if IsCredited(t, between, added, contradicted) then Credited(between, run, cap) else between;
      CreditSettles(between, run, cap);
      CreditKeeps(between, run, cap);
      StrikeSettles(credited, run);
      VerdictKeepsMarks(t, between, added, contradicted, cap);
    }
  }

  /** On a settled record the run has no effect: what learning leaves is what there is. */
  lemma SettledStays(t: Trace, r: Rec, between: Rec, added: seq<string>, now: seq<string>, cap: real)
    requires RunId(t) != "" && Settled(t, added, r) && KeepsMarks(AfterCount(t, r), between)
    requires r.id in added ==> r.id in now
    ensures AfterCount(t, r) == r
    ensures AfterVerdict(t, between, now, IsContradicted(t, AfterCount(t, r)), cap) == between
  {
    hide ContextIds, RootTag, Contradicts, Passed, AccessMarker, CreditMarker, StrikeMarker, Strikes, Attributed, Creditable;
    SettledKept(t, added, r, between);
  }

  // ---- replay ----

  ghost predicate KeepsMarksAt(view: View, steps: seq<RunStep>, cap: real, x: nat, k: nat)
    requires k < |steps|
  {
    var before := RunAll(view, steps[..k], cap);
    && UniqueIds(before) && x < |before| && x < |steps[k].learned|
    && KeepsMarks(CountAccess(before, steps[k].trace)[x], steps[k].learned[x])
  }

  /** Learning in steps m to n keeps ids unique and the marks of the record at position x. */
  ghost predicate LearningKeepsMarks(view: View, steps: seq<RunStep>, cap: real, x: nat, m: nat, n: nat)
    requires n <= |steps|
  {
    forall k :: m <= k < n ==> KeepsMarksAt(view, steps, cap, x, k)
  }

  /** One step of a sequence of runs, seen from one record. */
  lemma StepAt(view: View, steps: seq<RunStep>, cap: real, x: nat, k: nat)
    requires k < |steps| && KeepsMarksAt(view, steps, cap, x, k)
    ensures var s, before, after := steps[k], RunAll(view, steps[..k], cap), RunAll(view, steps[..k + 1], cap);
      && x < |before| && x < |after| && CountAccess(before, s.trace)[x] == AfterCount(s.trace, before[x])
      && after[x] == (if Diagnosis(s.trace.events).None? then AfterCount(s.trace, before[x])
                      else AfterVerdict(s.trace, s.learned[x], s.added, IsContradicted(s.trace, AfterCount(s.trace, before[x])), cap))
  {
    hide AfterCount, AfterVerdict, IsContradicted, Consolidated, CountAccess;
    var s, before := steps[k], RunAll(view, steps[..k], cap);
    assert steps[..k + 1][..k] == steps[..k] && steps[..k + 1][k] == s;
    CountIdentity(s.trace, before, x);
    LengthKept(before, s, cap);
    ConsolidatedAt(before, s.trace, s.learned, s.added, cap, x);
  }

  lemma {:induction false} StaysSettled(view: View, steps: seq<RunStep>, cap: real, x: nat, m: nat, n: nat)
    requires m < n <= |steps| && LearningKeepsMarks(view, steps, cap, x, m, n) && RunId(steps[m].trace) != ""
    ensures x < |RunAll(view, steps[..n], cap)|
    ensures Settled(steps[m].trace, steps[m].added, RunAll(view, steps[..n], cap)[x])
    decreases n
  {
    hide RunAll, AfterCount, AfterVerdict, IsContradicted, KeepsMarks, Settled, CountAccess, Diagnosis, RunId;
    var k := n - 1;
    assert KeepsMarksAt(view, steps, cap, x, k);
    StepAt(view, steps, cap, x, k);
    var s, before := steps[k], RunAll(view, steps[..k], cap);
    if k == m {
      RunSettles(s.trace, before[x], s.learned[x], s.added, cap);
    } else {
      StaysSettled(view, steps, cap, x, m, k);
      CountKeepsMarks(s.trace, before[x]);
      var counted := AfterCount(s.trace, before[x]);
      SettledKept(steps[m].trace, steps[m].added, before[x], counted);
      SettledKept(steps[m].trace, steps[m].added, counted, s.learned[x]);
      var contradicted := IsContradicted(s.trace, counted);
      VerdictKeepsMarks(s.trace, s.learned[x], s.added, contradicted, cap);
      SettledKept(steps[m].trace, steps[m].added, s.learned[x], AfterVerdict(s.trace, s.learned[x], s.added, contradicted, cap));
    }
  }

  /** Replaying a run adds no access, credit or strike: when a run of the sequence is consolidated again, however many
      other runs later, a record that was there the first time is not counted again, and is left exactly as the
      replay's learning leaves it. */
  lemma ReplayChangesNothing(view: View, steps: seq<RunStep>, cap: real, x: nat, m: nat, n: nat)
    requires m < n < |steps| && steps[n].trace == steps[m].trace && RunId(steps[m].trace) != ""
    requires LearningKeepsMarks(view, steps, cap, x, m, n + 1)
    requires var before := RunAll(view, steps[..n], cap);
      x < |before| && (before[x].id in steps[m].added ==> before[x].id in steps[n].added)
    ensures var before, after := RunAll(view, steps[..n], cap), RunAll(view, steps[..n + 1], cap);
      && CountAccess(before, steps[n].trace)[x] == before[x]
      && x < |after| && x < |steps[n].learned|
      && after[x] == if Diagnosis(steps[n].trace.events).None? then before[x] else steps[n].learned[x]
  {
    hide RunAll, AfterCount, AfterVerdict, IsContradicted, KeepsMarks, Settled, CountAccess, Diagnosis, RunId;
    StaysSettled(view, steps, cap, x, m, n);
    assert KeepsMarksAt(view, steps, cap, x, n);
    StepAt(view, steps, cap, x, n);
    var s, before := steps[n], RunAll(view, steps[..n], cap);
    SettledStays(s.trace, before[x], s.learned[x], steps[m].added, s.added, cap);
  }

  lemma BookkeptLength(view: View, t: Trace, cap: real)
    ensures |Bookkept(view, t, cap)| == |view|
  {
  }

  lemma BookkeptSettles(view: View, t: Trace, cap: real, i: nat)
    requires UniqueIds(view) && i < |view| && RunId(t) != ""
    ensures i < |Bookkept(view, t, cap)| && Bookkept(view, t, cap)[i].id == view[i].id && Settled(t, [], Bookkept(view, t, cap)[i])
  {
    hide Consolidated, AfterCount, AfterVerdict, IsContradicted, Settled, Diagnosis, RunId, CountAccess, RootTag;
    BookkeptLength(view, t, cap);
    CountIdentity(t, view, i);
    ConsolidatedAt(view, t, CountAccess(view, t), [], cap, i);
    var counted := AfterCount(t, view[i]);
    CountKeepsMarks(t, view[i]);
    RunSettles(t, view[i], counted, [], cap);
    VerdictKeepsMarks(t, counted, [], IsContradicted(t, counted), cap);
  }

  lemma BookkeptStays(once: View, t: Trace, cap: real, i: nat)
    requires UniqueIds(once) && i < |once| && RunId(t) != "" && Settled(t, [], once[i])
    ensures i < |Bookkept(once, t, cap)| && Bookkept(once, t, cap)[i] == once[i]
  {
    hide Consolidated, AfterCount, AfterVerdict, IsContradicted, Settled, Diagnosis, RunId, CountAccess, RootTag;
    BookkeptLength(once, t, cap);
    CountIdentity(t, once, i);
    ConsolidatedAt(once, t, CountAccess(once, t), [], cap, i);
    SettledStays(t, once[i], AfterCount(t, once[i]), [], [], cap);
  }

  /** In particular, consolidating a run that learns nothing twice in a row is consolidating it once. */
  lemma ImmediateReplay(view: View, t: Trace, cap: real)
    requires UniqueIds(view) && RunId(t) != ""
    ensures Bookkept(Bookkept(view, t, cap), t, cap) == Bookkept(view, t, cap)
  {
    hide Consolidated, CountAccess, AfterCount, AfterVerdict, IsContradicted, Settled, Diagnosis, RunId;
    var once := Bookkept(view, t, cap);
    BookkeptLength(view, t, cap);
    BookkeptLength(once, t, cap);
    forall i | 0 <= i < |view| ensures once[i].id == view[i].id && Settled(t, [], once[i]) {
      BookkeptSettles(view, t, cap, i);
    }
    assert UniqueIds(once);
    forall i | 0 <= i < |view| ensures Bookkept(once, t, cap)[i] == once[i] {
      BookkeptStays(once, t, cap, i);
    }
  }
}
