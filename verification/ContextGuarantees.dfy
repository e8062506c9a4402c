/** What a compiled context packet promises, over every request and in every mode
    (core/context/compiler.py). */
module ContextGuarantees {
  import opened Basics
  import opened Sorting
  import opened TokenText
  import opened Apportionment
  import opened SectionFit
  import opened Reclaim
  import opened FlatContext
  import opened ContextCompiler

  // ---- the items ----

  lemma EvidenceOrderTotal(required: seq<string>)
    ensures TotalPreorder((a: EvidenceRow, b: EvidenceRow) => EvidenceLe(required, a, b))
  {
    var le := (a: EvidenceRow, b: EvidenceRow) => EvidenceLe(required, a, b);
    forall a, b ensures le(a, b) || le(b, a) {
      StringLeTotal(a.id, b.id);
    }
    forall a, b, c | le(a, b) && le(b, c) ensures le(a, c) {
      StringLeTransitive(a.id, b.id, c.id);
    }
  }

  lemma {:induction false} EvidenceItemAt(rows: seq<EvidenceRow>, required: seq<string>, n: nat, i: nat)
    requires i < |rows|
    ensures |EvidenceItems(rows, required, n)| == |rows|
    ensures var item := EvidenceItems(rows, required, n)[i];
      item.sequence == n + i && item.kind == EvidenceItem && item.itemId == Some(rows[i].id)
      && item.required == (rows[i].id in required) && !item.truncated
  {
    if i > 0 {
      EvidenceItemAt(rows[1..], required, n + 1, i - 1);
    } else if |rows| > 1 {
      EvidenceItemAt(rows[1..], required, n + 1, 0);
    }
  }

  lemma EvidenceItemsLength(rows: seq<EvidenceRow>, required: seq<string>, n: nat)
    ensures |EvidenceItems(rows, required, n)| == |rows|
  {
    if rows != [] {
      EvidenceItemAt(rows, required, n, 0);
    }
  }

  ghost function SortedRows(r: Request): seq<EvidenceRow> {
    Sort(r.evidence, (a, b) => EvidenceLe(r.required, a, b))
  }

  /** Required evidence comes before optional evidence. */
  lemma EvidenceRequiredFirst(r: Request)
    ensures RequiredFirst(BuildEvidence(r))
  {
    hide BuildMemory;
    var le := (a: EvidenceRow, b: EvidenceRow) => EvidenceLe(r.required, a, b);
    EvidenceOrderTotal(r.required);
    SortSorts(r.evidence, le);
    var rows, items := SortedRows(r), BuildEvidence(r);
    EvidenceItemsLength(rows, r.required, 1 + |BuildMemory(r)|);
    forall i, j | 0 <= i < j < |items| && items[j].required ensures items[i].required {
      EvidenceItemAt(rows, r.required, 1 + |BuildMemory(r)|, i);
      EvidenceItemAt(rows, r.required, 1 + |BuildMemory(r)|, j);
      assert le(rows[i], rows[j]);
    }
  }

  ghost predicate Supplied(r: Request, id: string) {
    exists i :: 0 <= i < |r.evidence| && r.evidence[i].id == id
  }

  /** Every evidence row becomes one evidence item with its id and its required flag, and no other item does. */
  lemma EvidenceItemsMatch(r: Request, id: string)
    ensures Supplied(r, id) <==> exists x :: x in BuildEvidence(r) && x.itemId == Some(id)
    ensures forall x :: x in BuildEvidence(r) ==> x.kind == EvidenceItem && x.itemId.Some? && x.required == (x.itemId.value in r.required)
  {
    hide BuildMemory;
    var le := (a: EvidenceRow, b: EvidenceRow) => EvidenceLe(r.required, a, b);
    SortMembers(r.evidence, le);
    var rows, items := SortedRows(r), BuildEvidence(r);
    var n := 1 + |BuildMemory(r)|;
    EvidenceItemsLength(rows, r.required, n);
    forall i | 0 <= i < |rows| ensures
      items[i].kind == EvidenceItem && items[i].itemId == Some(rows[i].id) && items[i].required == (rows[i].id in r.required)
    {
      EvidenceItemAt(rows, r.required, n, i);
    }
    if Supplied(r, id) {
      var i :| 0 <= i < |r.evidence| && r.evidence[i].id == id;
      assert r.evidence[i] in rows;
      var j :| 0 <= j < |rows| && rows[j] == r.evidence[i];
      assert items[j] in items;
    }
    if exists x :: x in items && x.itemId == Some(id) {
      var x :| x in items && x.itemId == Some(id);
      var j :| 0 <= j < |items| && items[j] == x;
      assert rows[j] in r.evidence;
    }
  }

  lemma {:induction false} TierItemsPlain(kind: Kind, memories: seq<Memory>, n: nat, x: Item)
    requires x in TierItems(kind, memories, n)
    ensures !x.required && x.kind == kind && !x.truncated
  {
    hide MemoryLine, EvolutionLine;
    var items := TierItems(kind, memories, n);
    assert items == [items[0]] + items[1..];
    if x != items[0] {
      TierItemsPlain(kind, memories[1..], n + 1, x);
    }
  }

  lemma {:induction false} MemoryItemsPlain(r: Request, tiers: seq<Kind>, n: nat, x: Item)
    requires x in MemoryItems(r, tiers, n) && forall k :: k in tiers ==> k in TIERS
    ensures !x.required && x.kind !in {Query, EvidenceItem} && !x.truncated
  {
    hide MemoryLine, EvolutionLine;
    if tiers != [] {
      var memories := if tiers[0] in r.memories then r.memories[tiers[0]] else [];
      var here := TierItems(tiers[0], memories, n);
      if x in here {
        TierItemsPlain(tiers[0], memories, n, x);
        assert tiers[0] in TIERS;
      } else {
        MemoryItemsPlain(r, tiers[1..], n + |here|, x);
      }
    }
  }

  lemma OfKindPlain(r: Request, kind: Kind)
    ensures forall x :: x in OfKind(BuildMemory(r), kind) ==>
      x in BuildMemory(r) && x.kind == kind && !x.required && x.kind !in {Query, EvidenceItem}
    ensures RequiredFirst(OfKind(BuildMemory(r), kind))
  {
    var items := OfKind(BuildMemory(r), kind);
    FilterMembers((item: Item) => item.kind == kind, BuildMemory(r));
    forall x | x in items ensures !x.required && x.kind !in {Query, EvidenceItem} {
      MemoryItemsPlain(r, TIERS, 1, x);
    }
    assert forall i :: 0 <= i < |items| ==> items[i] in items;
  }

  lemma InputsRequiredFirst(r: Request)
    ensures forall s :: s in SectionInputs(r) ==> RequiredFirst(SectionInputs(r)[s])
  {
    hide BuildMemory, BuildEvidence, OfKind;
    OfKindPlain(r, Evolution);
    OfKindPlain(r, AssetProfile);
    OfKindPlain(r, Procedural);
    OfKindPlain(r, Semantic);
    OfKindPlain(r, Episodic);
    EvidenceRequiredFirst(r);
  }

  lemma Listed(s: Section)
    ensures s in SECTION_NAMES
  {
    assert SECTION_NAMES[Index(s)] == s;
  }

  /** Evidence items live in the evidence section only. */
  lemma OnlyEvidenceInEvidence(r: Request, s: Section)
    requires s != Evidence
    ensures s in SectionInputs(r) && forall x :: x in SectionInputs(r)[s] ==> x.kind != EvidenceItem
  {
    hide BuildMemory, BuildEvidence, OfKind;
    OfKindPlain(r, Evolution);
    OfKindPlain(r, AssetProfile);
    OfKindPlain(r, Procedural);
    OfKindPlain(r, Semantic);
    OfKindPlain(r, Episodic);
    assert s in SECTION_NAMES by { Listed(s); }
  }

  // ---- the final plan ----

  lemma {:induction false} LendKeepsFits(counter: string -> nat, inputs: Inputs, plan: Plan, order: seq<Section>)
    requires Consistent(inputs, plan)
    requires forall s :: s in plan.fitted ==> plan.fitted[s] == FitAll(counter, inputs[s], plan.budgets[s])
    ensures var last := LendAll(counter, inputs, plan, order);
      forall s :: s in last.fitted ==> last.fitted[s] == FitAll(counter, inputs[s], last.budgets[s])
    decreases |order|
  {
    hide FitAll, Cost;
    if order != [] {
      LendKeepsFits(counter, inputs, Lend(counter, inputs, plan, order[0]), order[1..]);
    }
  }

  /** Every section of a structured packet is the fit of its inputs to its final budget. */
  lemma FinalFits(c: Compiler, r: Request, activeOnly: bool)
    requires Valid(c)
    ensures var plan := FinalPlan(c, r, activeOnly);
      forall s :: s in Names(r, activeOnly) ==> plan.fitted[s] == FitAll(c.counter, SectionInputs(r)[s], plan.budgets[s])
  {
    hide FitAll, LendAll, Valid, Names, SectionInputs, Reservations, Total, HeadingTokens;
    ReservationsFit(c, r, activeOnly);
    var names := Names(r, activeOnly);
    var start := Start(c.counter, names, SectionInputs(r), Reservations(c, r, activeOnly), Available(c.counter, c.tokenBudget, names));
    LendKeepsFits(c.counter, SectionInputs(r), start, RECLAIM_ORDER);
  }

  // ---- required evidence ----

  lemma {:induction false} IncludedMembers(items: seq<Item>, kinds: set<Kind>, id: string)
    ensures id in IncludedIds(items, kinds) <==> id != "" && exists x :: x in items && x.kind in kinds && x.itemId == Some(id)
  {
    if items != [] {
      IncludedMembers(items[1..], kinds, id);
      assert items == [items[0]] + items[1..];
    }
  }

  lemma {:induction false} KeptMembers(names: seq<Section>, fitted: map<Section, Fit>, x: Item)
    requires forall s :: s in names ==> s in fitted
    ensures x in KeptItems(names, fitted) <==> exists s :: s in names && x in fitted[s].kept
  {
    if names != [] {
      KeptMembers(names[1..], fitted, x);
      assert names == [names[0]] + names[1..];
      if x in fitted[names[0]].kept {
        assert names[0] in names && x in fitted[names[0]].kept;
      }
    }
  }

  /** The evidence ids among the kept items of a packet are supplied ones, and include every required one supplied. */
  ghost predicate KeepsRequired(r: Request, kept: seq<Item>) {
    && (forall x :: x in kept && x.kind == EvidenceItem ==> x.itemId.Some? && Supplied(r, x.itemId.value))
    && (forall x :: x in BuildEvidence(r) && x.required ==> x in kept)
  }

  /** Executable form of Supplied. */
  predicate IsSupplied(rows: seq<EvidenceRow>, id: string) {
    rows != [] && (rows[0].id == id || IsSupplied(rows[1..], id))
  }

  lemma {:induction false} SuppliedSearch(rows: seq<EvidenceRow>, id: string)
    ensures IsSupplied(rows, id) <==> exists i :: 0 <= i < |rows| && rows[i].id == id
  {
    if rows != [] {
      SuppliedSearch(rows[1..], id);
      if exists i :: 0 <= i < |rows| && rows[i].id == id {
        var i :| 0 <= i < |rows| && rows[i].id == id;
        assert i > 0 ==> rows[1..][i - 1].id == id;
      }
      if IsSupplied(rows[1..], id) {
        var i :| 0 <= i < |rows[1..]| && rows[1..][i].id == id;
        assert rows[i + 1].id == id;
      }
    }
  }

  lemma {:induction false} FilterAgrees(p: string -> bool, q: string -> bool, s: seq<string>)
    requires forall x :: x in s ==> p(x) == q(x)
    ensures Filter(p, s) == Filter(q, s)
  {
    if s != [] {
      FilterAgrees(p, q, s[1..]);
    }
  }

  /** From a kept list to the packet's two id lists. */
  lemma PacketReports(r: Request, kept: seq<Item>, counter: string -> nat, summary: string, before: nat, mode: Mode,
                      sections: seq<SectionReport>)
    requires KeepsRequired(r, kept)
    requires forall i :: 0 <= i < |r.evidence| ==> r.evidence[i].id != ""
    ensures var p := MakePacket(counter, summary, kept, r.required, before, mode, sections);
      && (forall id :: id in r.required ==> (id in p.includedEvidenceIds <==> Supplied(r, id)))
      && p.missingEvidence == Filter((id: string) => !IsSupplied(r.evidence, id), r.required)
  {
    hide BuildEvidence, IncludedIds;
    var p := MakePacket(counter, summary, kept, r.required, before, mode, sections);
    forall id | id in r.required
      ensures id in p.includedEvidenceIds <==> Supplied(r, id)
      ensures IsSupplied(r.evidence, id) <==> Supplied(r, id)
    {
      IncludedMembers(kept, {EvidenceItem}, id);
      EvidenceItemsMatch(r, id);
      SuppliedSearch(r.evidence, id);
    }
    FilterAgrees((id: string) => id !in p.includedEvidenceIds, (id: string) => !IsSupplied(r.evidence, id), r.required);
  }

  lemma EvidenceInputs(r: Request)
    ensures Evidence in SectionInputs(r) && SectionInputs(r)[Evidence] == BuildEvidence(r)
  {
  }

  lemma HasEvidence(r: Request, x: Item)
    requires x in BuildEvidence(r)
    ensures r.evidence != []
  {
    SortPermutes(r.evidence, (a, b) => EvidenceLe(r.required, a, b));
    EvidenceItemsLength(SortedRows(r), r.required, 1 + |BuildMemory(r)|);
  }

  lemma KeptWasInput(counter: string -> nat, inputs: Inputs, budget: int, s: Section, x: Item)
    requires s in inputs && x in FitAll(counter, inputs[s], budget).kept
    ensures exists y :: y in inputs[s] && y.kind == x.kind && y.itemId == x.itemId
  {
    FitInvents(counter, inputs[s], budget);
    var i :| 0 <= i < |inputs[s]| && inputs[s][i].(line := x.line, truncated := x.truncated) == x;
    assert inputs[s][i] in inputs[s];
  }

  lemma RequiredIsKept(counter: string -> nat, items: seq<Item>, budget: int, x: Item)
    requires x in items && x.required
    ensures x in FitAll(counter, items, budget).kept
  {
    hide FitAll;
    RequiredItemsKept(counter, items, budget);
    FilterMembers(IsRequired, items);
    FilterMembers(IsRequired, FitAll(counter, items, budget).kept);
    assert x in Filter(IsRequired, items);
  }

  lemma StructuredKeepsRequired(c: Compiler, r: Request, activeOnly: bool)
    requires Valid(c)
    ensures KeepsRequired(r, KeptItems(Names(r, activeOnly), FinalPlan(c, r, activeOnly).fitted))
  {
    hide FitAll, LendAll, Valid, Names, SectionInputs, BuildEvidence, FinalPlan;
    var names, plan := Names(r, activeOnly), FinalPlan(c, r, activeOnly);
    var kept := KeptItems(names, plan.fitted);
    FinalFits(c, r, activeOnly);
    EvidenceInputs(r);
    forall x | x in kept && x.kind == EvidenceItem ensures x.itemId.Some? && Supplied(r, x.itemId.value) {
      KeptMembers(names, plan.fitted, x);
      var s :| s in names && x in plan.fitted[s].kept;
      KeptWasInput(c.counter, SectionInputs(r), plan.budgets[s], s, x);
      if s != Evidence {
        OnlyEvidenceInEvidence(r, s);
      }
      var y :| y in SectionInputs(r)[s] && y.kind == x.kind && y.itemId == x.itemId;
      EvidenceItemsMatch(r, if y.itemId.Some? then y.itemId.value else "");
    }
    forall x | x in BuildEvidence(r) && x.required ensures x in kept {
      HasEvidence(r, x);
      NamesFacts(r, activeOnly);
      RequiredIsKept(c.counter, SectionInputs(r)[Evidence], plan.budgets[Evidence], x);
      KeptMembers(names, plan.fitted, x);
    }
  }

  lemma MemoryIsNotEvidence(r: Request, x: Item)
    requires x in BuildMemory(r)
    ensures x.kind != EvidenceItem
  {
    MemoryItemsPlain(r, TIERS, 1, x);
  }

  lemma {:induction false} RequiredPrefix(items: seq<Item>, i: nat)
    requires RequiredFirst(items) && i < |items| && items[i].required
    ensures CountRequired(items) > i
  {
    assert items[0].required;
    if i > 0 {
      forall a, b | 0 <= a < b < |items[1..]| && items[1..][b].required ensures items[1..][a].required {
        assert items[b + 1].required;
      }
      RequiredPrefix(items[1..], i - 1);
    }
  }

  /** With required items first, a cap of at least their number spares them all. */
  lemma RequiredInCap(items: seq<Item>, cap: int, x: Item)
    requires RequiredFirst(items) && cap >= CountRequired(items) && x in items && x.required
    ensures x in Take(items, cap)
  {
    var i :| 0 <= i < |items| && items[i] == x;
    RequiredPrefix(items, i);
    assert i < cap;
    assert Take(items, cap)[i] == x;
  }

  /** The shape of a flat selection: the query, the required items, and the longest prefix of the optional
      ones that fits. */
  lemma FlatShape(c: Compiler, r: Request) returns (left: nat)
    ensures var memory, evidence := BuildMemory(r), BuildEvidence(r);
      var rest := Take(memory, c.maxMemoryLines) + Take(evidence, Max(c.maxEvidenceLines, CountRequired(evidence)));
      var kept := Select(c.counter, QueryItem(r.query), memory, evidence,
                         c.maxMemoryLines, c.maxEvidenceLines, c.tokenBudget, true).0;
      && kept == [QueryItem(r.query)] + KeepFirst(rest, left) && left <= CountOptional(rest)
      && (left == 0 || Measure(c.counter, kept) <= c.tokenBudget)
      && (forall j :: left < j <= CountOptional(rest) ==> !Fits(c.counter, QueryItem(r.query), rest, j, c.tokenBudget))
  {
    hide BuildMemory, BuildEvidence, Trim, Measure, CountRequired, Take;
    var query, memory, evidence := QueryItem(r.query), BuildMemory(r), BuildEvidence(r);
    var cap := Max(c.maxEvidenceLines, CountRequired(evidence));
    var rest := Take(memory, c.maxMemoryLines) + Take(evidence, cap);
    KeepAll(rest);
    assert [query] + Take(memory, c.maxMemoryLines) + Take(evidence, cap) == [query] + rest;
    left := TrimKeepsLongestPrefix(c.counter, query, rest, CountOptional(rest), c.tokenBudget,
                                   Capped(memory, c.maxMemoryLines) + Capped(evidence, cap));
  }

  lemma FlatKeepsRequired(c: Compiler, r: Request, limits: bool)
    ensures KeepsRequired(r, Select(c.counter, QueryItem(r.query), BuildMemory(r), BuildEvidence(r),
                                    c.maxMemoryLines, c.maxEvidenceLines, c.tokenBudget, limits).0)
  {
    hide BuildMemory, BuildEvidence, Trim;
    var query, memory, evidence := QueryItem(r.query), BuildMemory(r), BuildEvidence(r);
    var kept := Select(c.counter, query, memory, evidence, c.maxMemoryLines, c.maxEvidenceLines, c.tokenBudget, limits).0;
    if limits {
      var left := FlatShape(c, r);
      var cap := Max(c.maxEvidenceLines, CountRequired(evidence));
      var rest := Take(memory, c.maxMemoryLines) + Take(evidence, cap);
      KeepFirstRequired(rest, left);
      FilterMembers(IsRequired, rest);
      FilterMembers(IsRequired, KeepFirst(rest, left));
      EvidenceRequiredFirst(r);
      forall x | x in evidence && x.required ensures x in kept {
        RequiredInCap(evidence, cap, x);
        assert x in rest;
        assert x in Filter(IsRequired, KeepFirst(rest, left));
      }
    }
    forall x | x in kept && x.kind == EvidenceItem ensures x.itemId.Some? && Supplied(r, x.itemId.value) {
      if x in memory {
        MemoryIsNotEvidence(r, x);
      }
      assert x in evidence;
      EvidenceItemsMatch(r, if x.itemId.Some? then x.itemId.value else "");
    }
  }

  lemma FlatIsPacket(c: Compiler, r: Request, limits: bool)
    ensures var p := FlatPacket(c, r, limits);
      p == MakePacket(c.counter, p.summary,
                      Select(c.counter, QueryItem(r.query), BuildMemory(r), BuildEvidence(r),
                             c.maxMemoryLines, c.maxEvidenceLines, c.tokenBudget, limits).0,
                      r.required, p.tokensBefore, p.mode, p.sections)
  {
    hide Select, BuildMemory, BuildEvidence, IncludedIds, Filter, Report, ReportDrops, TokensBefore, Join, Lines, Numbers;
  }

  lemma StructuredIsPacket(c: Compiler, r: Request, activeOnly: bool)
    requires Valid(c)
    ensures var p := StructuredPacket(c, r, activeOnly);
      p == MakePacket(c.counter, p.summary, KeptItems(Names(r, activeOnly), FinalPlan(c, r, activeOnly).fitted),
                      r.required, p.tokensBefore, p.mode, p.sections)
  {
    hide Valid, Names, FinalPlan, KeptItems, SummaryParts, SectionReports, IncludedIds, Filter, TokensBefore, Join;
  }

  /** Required evidence survives: in every mode, whatever the counter and the budgets, the required ids
      that were supplied are included, and the missing ones are exactly those that were not supplied. */
  lemma RequiredEvidenceSurvives(c: Compiler, r: Request)
    requires Valid(c)
    ensures Compiled(c, r).Err? <==> exists i :: 0 <= i < |r.evidence| && r.evidence[i].id == ""
    ensures var result := Compiled(c, r);
      result.Ok? ==>
        && (forall id :: id in r.required ==> (id in result.value.includedEvidenceIds <==> Supplied(r, id)))
        && result.value.missingEvidence == Filter((id: string) => !IsSupplied(r.evidence, id), r.required)
  {
    hide Valid, Names, FinalPlan, Select, MakePacket, KeptItems, SummaryParts, SectionReports, BuildMemory, BuildEvidence,
         TokensBefore, Supplied, IsSupplied, KeepsRequired, Filter, Report, ReportDrops;
    if Compiled(c, r).Ok? {
      if !c.enabled || c.strategy == Flat {
        var limits := c.enabled;
        FlatKeepsRequired(c, r, limits);
        var p := FlatPacket(c, r, limits);
        var kept := Select(c.counter, QueryItem(r.query), BuildMemory(r), BuildEvidence(r),
                           c.maxMemoryLines, c.maxEvidenceLines, c.tokenBudget, limits).0;
        FlatIsPacket(c, r, limits);
        PacketReports(r, kept, c.counter, p.summary, p.tokensBefore, p.mode, p.sections);
      } else {
        var activeOnly := c.strategy == Adaptive;
        StructuredKeepsRequired(c, r, activeOnly);
        var p := StructuredPacket(c, r, activeOnly);
        StructuredIsPacket(c, r, activeOnly);
        PacketReports(r, KeptItems(Names(r, activeOnly), FinalPlan(c, r, activeOnly).fitted), c.counter,
                      p.summary, p.tokensBefore, p.mode, p.sections);
      }
    }
  }

  // ---- flat ----

  lemma Blanks()
    ensures IsSpace(' ') && IsSpace('\n')
  {
  }

  /** With the default estimate the summary itself, one line per item, then fits the budget, unless
      only the query and required items are left. */
  lemma FlatFitsBudget(c: Compiler, r: Request) returns (left: nat)
    requires c.counter == DefaultTokenCounter
    ensures FlatPacket(c, r, true).tokensAfter <= c.tokenBudget || left == 0
    ensures var memory, evidence := BuildMemory(r), BuildEvidence(r);
      var rest := Take(memory, c.maxMemoryLines) + Take(evidence, Max(c.maxEvidenceLines, CountRequired(evidence)));
      Select(c.counter, QueryItem(r.query), memory, evidence, c.maxMemoryLines, c.maxEvidenceLines, c.tokenBudget, true).0
        == [QueryItem(r.query)] + KeepFirst(rest, left)
  {
    hide BuildMemory, BuildEvidence, Select, Take, IsSpace, DefaultTokenCounter, CountRequired, Filter, IncludedIds, Report, ReportDrops, TokensBefore;
    left := FlatShape(c, r);
    var kept := Select(c.counter, QueryItem(r.query), BuildMemory(r), BuildEvidence(r),
                       c.maxMemoryLines, c.maxEvidenceLines, c.tokenBudget, true).0;
    Blanks();
    CountOfJoin(' ', Lines(kept));
    CountOfJoin('\n', Lines(kept));
  }

  lemma {:induction false} TierNumbers(kind: Kind, memories: seq<Memory>, n: nat, i: nat)
    requires i < |TierItems(kind, memories, n)|
    ensures TierItems(kind, memories, n)[i].sequence == n + i
  {
    hide MemoryLine, EvolutionLine;
    if i > 0 {
      TierNumbers(kind, memories[1..], n + 1, i - 1);
    }
  }

  lemma {:induction false} MemoryNumbers(r: Request, tiers: seq<Kind>, n: nat, i: nat)
    requires i < |MemoryItems(r, tiers, n)|
    ensures MemoryItems(r, tiers, n)[i].sequence == n + i
  {
    hide MemoryLine, EvolutionLine;
    if tiers != [] {
      var memories := if tiers[0] in r.memories then r.memories[tiers[0]] else [];
      var here := TierItems(tiers[0], memories, n);
      if i < |here| {
        TierNumbers(tiers[0], memories, n, i);
      } else {
        MemoryNumbers(r, tiers[1..], n + |here|, i - |here|);
      }
    }
  }

  lemma BuiltMemoryNumber(r: Request, i: nat)
    requires i < |BuildMemory(r)|
    ensures BuildMemory(r)[i].sequence == 1 + i
  {
    MemoryNumbers(r, TIERS, 1, i);
  }

  lemma BuiltEvidenceNumber(r: Request, i: nat)
    requires i < |BuildEvidence(r)|
    ensures BuildEvidence(r)[i].sequence == 1 + |BuildMemory(r)| + i
  {
    EvidenceItemsLength(SortedRows(r), r.required, 1 + |BuildMemory(r)|);
    EvidenceItemAt(SortedRows(r), r.required, 1 + |BuildMemory(r)|, i);
  }

  /** Sequence numbers are positions: no two items of a request share one. */
  lemma ItemsAreNumbered(r: Request)
    ensures Distinct(Numbers(AllItems(r)))
  {
    hide BuildMemory, BuildEvidence;
    var all, memory, evidence := AllItems(r), BuildMemory(r), BuildEvidence(r);
    forall i | 0 <= i < |all| ensures all[i].sequence == i {
      if 1 <= i <= |memory| {
        BuiltMemoryNumber(r, i - 1);
      } else if i > |memory| {
        BuiltEvidenceNumber(r, i - 1 - |memory|);
      }
    }
  }

  lemma {:induction false} DropsExplained(counter: string -> nat, items: seq<Item>, why: Reasons)
    requires forall x :: x in items ==> x.sequence in why
    ensures forall p :: p in ReportDrops(counter, items, why) ==> p.reason.Some?
  {
    if items != [] {
      DropsExplained(counter, items[1..], why);
      var rest := ReportDrops(counter, items[1..], why);
      assert ReportDrops(counter, items, why) == [ReportDrops(counter, items, why)[0]] + rest;
    }
  }

  /** Every item a flat packet drops is reported with its reason: looking the reason up never fails. */
  lemma FlatDropsExplained(c: Compiler, r: Request)
    ensures forall p :: p in FlatPacket(c, r, true).sections[0].dropped ==> p.reason.Some?
  {
    hide BuildMemory, BuildEvidence, Select, Numbers, Filter, Report, ReportDrops, IncludedIds, Join, Lines, TokensBefore, Distinct;
    var (kept, why) := Select(c.counter, QueryItem(r.query), BuildMemory(r), BuildEvidence(r),
                              c.maxMemoryLines, c.maxEvidenceLines, c.tokenBudget, true);
    var numbers := Numbers(kept);
    var lost := (item: Item) => item.sequence !in numbers;
    var dropped := Filter(lost, AllItems(r));
    ItemsAreNumbered(r);
    FilterMembers(lost, AllItems(r));
    forall x | x in dropped ensures x.sequence in why {
      var i :| 0 <= i < |AllItems(r)| && AllItems(r)[i] == x;
      NumberAt(AllItems(r), i);
      EveryDropHasItsReason(c.counter, QueryItem(r.query), BuildMemory(r), BuildEvidence(r),
                            c.maxMemoryLines, c.maxEvidenceLines, c.tokenBudget, x.sequence);
    }
    DropsExplained(c.counter, dropped, why);
  }

  // ---- structured ----

  lemma {:induction false} LinesCost(counter: string -> nat, items: seq<Item>)
    ensures SumOf(counter, Lines(items)) == Cost(counter, items)
  {
    if items != [] {
      LinesCost(counter, items[1..]);
      CostSplits(counter, [items[0]], items[1..]);
      CostOfOne(counter, items[0]);
      assert items == [items[0]] + items[1..];
      assert Lines(items)[1..] == Lines(items[1..]);
    }
  }

  lemma {:induction false} SumOfConcat(counter: string -> nat, a: seq<string>, b: seq<string>)
    ensures SumOf(counter, a + b) == SumOf(counter, a) + SumOf(counter, b)
  {
    if a == [] {
      assert a + b == b;
    } else {
      assert (a + b)[1..] == a[1..] + b;
      SumOfConcat(counter, a[1..], b);
    }
  }

  lemma {:induction false} TotalSame(names: seq<Section>, a: map<Section, int>, b: map<Section, int>)
    requires forall s :: s in names ==> s in a && s in b && a[s] == b[s]
    ensures Total(names, a) == Total(names, b)
  {
    if names != [] {
      TotalSame(names[1..], a, b);
    }
  }

  lemma {:induction false} UsedAgrees(some: seq<Section>, fitted: map<Section, Fit>, all: seq<Section>)
    requires forall s :: s in all ==> s in fitted
    requires forall s :: s in some ==> s in all
    ensures Total(some, map s | s in some :: fitted[s].used) == Total(some, map s | s in all :: fitted[s].used)
  {
    TotalSame(some, map s | s in some :: fitted[s].used, map s | s in all :: fitted[s].used);
  }

  /** The summary costs its headings plus what the sections keep. */
  lemma {:induction false} SummaryCost(counter: string -> nat, names: seq<Section>, fitted: map<Section, Fit>)
    requires forall s :: s in names ==> s in fitted && fitted[s].used == Cost(counter, fitted[s].kept)
    ensures SumOf(counter, SummaryParts(names, fitted)) == HeadingTokens(counter, names) + TotalUsed(names, fitted)
  {
    hide Heading, Cost, Lines;
    if names != [] {
      var s, rest := names[0], names[1..];
      SummaryCost(counter, rest, fitted);
      SumOfConcat(counter, [Heading(s)], Lines(fitted[s].kept));
      SumOfConcat(counter, [Heading(s)] + Lines(fitted[s].kept), SummaryParts(rest, fitted));
      LinesCost(counter, fitted[s].kept);
      assert SumOf(counter, [Heading(s)]) == counter(Heading(s)) + SumOf(counter, []);
      UsedAgrees(rest, fitted, names);
    }
  }

  lemma FinalPlanIs(c: Compiler, r: Request, activeOnly: bool)
    requires Valid(c)
    ensures var names := Names(r, activeOnly);
      Covers(names, SectionInputs(r), Reservations(c, r, activeOnly))
      && FinalPlan(c, r, activeOnly)
         == LendAll(c.counter, SectionInputs(r),
                    Start(c.counter, names, SectionInputs(r), Reservations(c, r, activeOnly),
                          Available(c.counter, c.tokenBudget, names)), RECLAIM_ORDER)
  {
    hide Valid, Names, SectionInputs, Reservations, LendAll, Total, HeadingTokens, FitAll;
    ReservationsFit(c, r, activeOnly);
  }

  /** A structured summary costs exactly its headings plus what its sections keep. */
  lemma SummaryTokens(c: Compiler, r: Request, activeOnly: bool)
    requires Valid(c) && c.counter == DefaultTokenCounter
    ensures var names := Names(r, activeOnly);
      StructuredPacket(c, r, activeOnly).tokensAfter
      == HeadingTokens(c.counter, names) + TotalUsed(names, FinalPlan(c, r, activeOnly).fitted)
  {
    hide Valid, Names, SectionInputs, FinalPlan, Total, HeadingTokens, FitAll,
         KeptItems, SummaryParts, SectionReports, IncludedIds, Filter, TokensBefore, DefaultTokenCounter, IsSpace;
    var names, plan := Names(r, activeOnly), FinalPlan(c, r, activeOnly);
    FinalFits(c, r, activeOnly);
    forall s | s in names ensures plan.fitted[s].used == Cost(c.counter, plan.fitted[s].kept) {
      UsedIsCost(c.counter, SectionInputs(r)[s], plan.budgets[s]);
    }
    SummaryCost(c.counter, names, plan.fitted);
    Blanks();
    CountOfJoin('\n', SummaryParts(names, plan.fitted));
  }

  /** The end-to-end bound: with the default estimate, a structured or adaptive summary exceeds the token budget (or
      its own headings, if those alone exceed it) by what required items cost beyond their sections' reservations, or
      else by at most the unused reservation of the section that borrowed last. */
  lemma StructuredFitsBudget(c: Compiler, r: Request, activeOnly: bool) returns (borrower: Section)
    requires Valid(c) && c.counter == DefaultTokenCounter
    ensures var names, inputs, budgets := Names(r, activeOnly), SectionInputs(r), Reservations(c, r, activeOnly);
      var room := Max(c.tokenBudget, HeadingTokens(c.counter, names));
      && borrower in names && Covers(names, inputs, budgets)
      && (|| StructuredPacket(c, r, activeOnly).tokensAfter <= room + TotalExcess(c.counter, names, inputs, budgets)
          || (&& BorrowedLast(c.counter, inputs, budgets, FinalPlan(c, r, activeOnly), RECLAIM_ORDER, borrower)
              && StructuredPacket(c, r, activeOnly).tokensAfter <= room + Slack(c.counter, inputs, budgets, borrower)))
  {
    hide Valid, Names, SectionInputs, Reservations, FinalPlan, TotalExcess, Slack, LendAll, Total, HeadingTokens, BorrowedLast,
         KeptItems, SummaryParts, SectionReports, IncludedIds, Filter, TokensBefore, DefaultTokenCounter, IsSpace, RequiredFirst, PrefixMonotone, FitAll;
    var names := Names(r, activeOnly);
    ReservationsFit(c, r, activeOnly);
    NamesFacts(r, activeOnly);
    InputsRequiredFirst(r);
    DefaultIsPrefixMonotone();
    borrower := ReclaimBound(c.counter, names, SectionInputs(r), Reservations(c, r, activeOnly),
                             Available(c.counter, c.tokenBudget, names));
    SummaryTokens(c, r, activeOnly);
    FinalPlanIs(c, r, activeOnly);
  }

  /** No input is lost silently: in a structured packet each item of a section is kept, dropped, or split
      into a kept head and a dropped tail with only white space between them. */
  lemma NothingLostSilently(c: Compiler, r: Request, activeOnly: bool, s: Section)
    requires Valid(c) && s in Names(r, activeOnly)
    ensures var items := SectionInputs(r)[s];
      forall i :: 0 <= i < |items| ==> Accounted(items[i], FinalPlan(c, r, activeOnly).fitted[s])
  {
    hide Valid, Names, SectionInputs, FinalPlan, FitAll;
    FinalFits(c, r, activeOnly);
    EveryItemAccounted(c.counter, SectionInputs(r)[s], FinalPlan(c, r, activeOnly).budgets[s]);
  }
}
