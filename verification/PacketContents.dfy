/** What a structured packet says, read off the request and the packet alone (core/context/compiler.py). */
module PacketContents {
  import opened Basics
  import opened Sorting
  import opened TokenText
  import opened Apportionment
  import opened SectionFit
  import opened Reclaim
  import opened FlatContext
  import opened ContextCompiler
  import opened ContextGuarantees

  // ---- every item is reported where it belongs ----

  /** The section an item is for. */
  function Home(kind: Kind): Section {
    match kind
    case Query => TaskSpec
    case AssetProfile => Assets
    case Procedural => Workflow
    case Semantic => Learnings
    case Episodic => KeyResults
    case Evolution => CurrentState
    case EvidenceItem => Evidence
  }

  lemma {:induction false} TierKind(kind: Kind, memories: seq<Memory>, n: nat, x: Item)
    requires x in TierItems(kind, memories, n)
    ensures x.kind == kind
  {
    hide MemoryLine;
    if memories != [] && x in TierItems(kind, memories[1..], n + 1) {
      TierKind(kind, memories[1..], n + 1, x);
    }
  }

  lemma {:induction false} MemoryKinds(r: Request, tiers: seq<Kind>, n: nat, x: Item)
    requires x in MemoryItems(r, tiers, n)
    ensures x.kind in tiers || x.kind == Evolution
  {
    hide MemoryLine, EvolutionLine;
    if tiers != [] {
      var memories := if tiers[0] in r.memories then r.memories[tiers[0]] else [];
      var here := TierItems(tiers[0], memories, n);
      if x in here {
        TierKind(tiers[0], memories, n, x);
      } else {
        MemoryKinds(r, tiers[1..], n + |here|, x);
      }
    }
  }

  lemma {:induction false} EvidenceKind(rows: seq<EvidenceRow>, required: seq<string>, n: nat, x: Item)
    requires x in EvidenceItems(rows, required, n)
    ensures x.kind == EvidenceItem
  {
    hide EvidenceLine;
    if rows != [] && x in EvidenceItems(rows[1..], required, n + 1) {
      EvidenceKind(rows[1..], required, n + 1, x);
    }
  }

  lemma BuiltKinds(r: Request, x: Item)
    ensures x in BuildMemory(r) ==> x.kind in TIERS || x.kind == Evolution
    ensures x in BuildEvidence(r) ==> x.kind == EvidenceItem
  {
    hide MemoryItems, EvidenceItems, EvidenceLe, Sort;
    if x in BuildMemory(r) {
      MemoryKinds(r, TIERS, 1, x);
    }
    if x in BuildEvidence(r) {
      EvidenceKind(SortedRows(r), r.required, 1 + |BuildMemory(r)|, x);
    }
  }

  /** A section holds exactly the items that are for it. */
  lemma InputsAtHome(r: Request, s: Section, x: Item)
    ensures s in SectionInputs(r)
    ensures x in SectionInputs(r)[s] <==> x in AllItems(r) && Home(x.kind) == s
  {
    hide BuildMemory, BuildEvidence;
    Listed(s);
    BuiltKinds(r, x);
    FilterMembers((item: Item) => item.kind == Evolution, BuildMemory(r));
    FilterMembers((item: Item) => item.kind == AssetProfile, BuildMemory(r));
    FilterMembers((item: Item) => item.kind == Procedural, BuildMemory(r));
    FilterMembers((item: Item) => item.kind == Semantic, BuildMemory(r));
    FilterMembers((item: Item) => item.kind == Episodic, BuildMemory(r));
  }

  function ItemsOf(list: seq<Provenance>): seq<Item> {
    seq(|list|, i requires 0 <= i < |list| => list[i].item)
  }

  /** The report has an entry with this sequence number, kept or dropped. */
  ghost predicate Mentions(report: SectionReport, n: nat) {
    exists x :: (x in ItemsOf(report.kept) || x in ItemsOf(report.dropped)) && x.sequence == n
  }

  /** It has the item, kept or dropped, or its two halves. */
  ghost predicate Holds(report: SectionReport, x: Item) {
    Accounted(x, Fit(ItemsOf(report.kept), ItemsOf(report.dropped), 0))
  }

  lemma {:induction false} ReportItems(counter: string -> nat, items: seq<Item>, reason: Option<DropReason>)
    ensures ItemsOf(Report(counter, items, reason)) == items
    ensures forall p :: p in Report(counter, items, reason) ==> p.estimatedTokens == counter(p.item.line) && p.reason == reason
  {
    if items != [] {
      ReportItems(counter, items[1..], reason);
      var rest := Report(counter, items[1..], reason);
      assert ItemsOf([Provenance(items[0], counter(items[0].line), reason)] + rest) == [items[0]] + ItemsOf(rest);
    }
  }

  lemma {:induction false} ReportCount(counter: string -> nat, names: seq<Section>, inputs: Inputs, plan: Plan)
    requires Consistent(inputs, plan) && forall s :: s in names ==> s in plan.fitted
    ensures |SectionReports(counter, names, inputs, plan)| == |names|
  {
    hide ReportSection;
    if names != [] {
      ReportCount(counter, names[1..], inputs, plan);
    }
  }

  lemma {:induction false} ReportAt(counter: string -> nat, names: seq<Section>, inputs: Inputs, plan: Plan, n: nat)
    requires Consistent(inputs, plan) && (forall s :: s in names ==> s in plan.fitted) && n < |names|
    ensures var reports := SectionReports(counter, names, inputs, plan);
      && |reports| == |names|
      && reports[n] == ReportSection(counter, names[n], inputs[names[n]], plan.budgets[names[n]], plan.fitted[names[n]])
    decreases n
  {
    hide ReportSection;
    if n > 0 {
      ReportAt(counter, names[1..], inputs, plan, n - 1);
    } else {
      ReportCount(counter, names[1..], inputs, plan);
    }
  }

  /** Report n is about section n: its entries are that section's final fit to its final budget. */
  lemma ReportIsFit(c: Compiler, r: Request, activeOnly: bool, n: nat)
    requires Valid(c) && n < |StructuredPacket(c, r, activeOnly).sections|
    ensures |StructuredPacket(c, r, activeOnly).sections| == |Names(r, activeOnly)|
    ensures var s, report := Names(r, activeOnly)[n], StructuredPacket(c, r, activeOnly).sections[n];
      && s in FinalPlan(c, r, activeOnly).fitted && s in SectionInputs(r)
      && var fit := FinalPlan(c, r, activeOnly).fitted[s];
         && report.name == Some(s) && ItemsOf(report.kept) == fit.kept && ItemsOf(report.dropped) == fit.dropped
         && s in FinalPlan(c, r, activeOnly).budgets && report.tokenBudget == FinalPlan(c, r, activeOnly).budgets[s]
         && report.tokensBefore == Cost(c.counter, SectionInputs(r)[s])
  {
    hide Valid, Names, SectionInputs, FinalPlan, SectionReports, Cost;
    var names, plan := Names(r, activeOnly), FinalPlan(c, r, activeOnly);
    ReportCount(c.counter, names, SectionInputs(r), plan);
    ReportAt(c.counter, names, SectionInputs(r), plan, n);
    ReportItems(c.counter, plan.fitted[names[n]].kept, None);
    ReportItems(c.counter, plan.fitted[names[n]].dropped, Some(SectionBudget));
  }

  lemma HomeIsNamed(c: Compiler, r: Request, activeOnly: bool, x: Item) returns (n: nat)
    requires Valid(c) && x in AllItems(r)
    ensures n < |StructuredPacket(c, r, activeOnly).sections| == |Names(r, activeOnly)| && Names(r, activeOnly)[n] == Home(x.kind)
  {
    hide Valid, SectionInputs, FinalPlan, AllItems, ActiveNames;
    InputsAtHome(r, Home(x.kind), x);
    Listed(Home(x.kind));
    ActiveAreListed(SECTION_NAMES, SectionInputs(r), activeOnly);
    ReportCount(c.counter, Names(r, activeOnly), SectionInputs(r), FinalPlan(c, r, activeOnly));
    n :| 0 <= n < |Names(r, activeOnly)| && Names(r, activeOnly)[n] == Home(x.kind);
  }

  lemma HeldAtHome(c: Compiler, r: Request, activeOnly: bool, x: Item, n: nat)
    requires Valid(c) && x in AllItems(r) && n < |StructuredPacket(c, r, activeOnly).sections| == |Names(r, activeOnly)|
    requires Names(r, activeOnly)[n] == Home(x.kind)
    ensures StructuredPacket(c, r, activeOnly).sections[n].name == Some(Home(x.kind))
    ensures Holds(StructuredPacket(c, r, activeOnly).sections[n], x)
  {
    hide Valid, Names, SectionInputs, FinalPlan, AllItems, StructuredPacket, HalvesOf;
    var s := Home(x.kind);
    ReportIsFit(c, r, activeOnly, n);
    InputsAtHome(r, s, x);
    NothingLostSilently(c, r, activeOnly, s);
    var items := SectionInputs(r)[s];
    var i :| 0 <= i < |items| && items[i] == x;
    assert Accounted(items[i], FinalPlan(c, r, activeOnly).fitted[s]);
  }

  lemma SameNumber(r: Request, x: Item, y: Item)
    requires x in AllItems(r) && y in AllItems(r) && x.sequence == y.sequence
    ensures x == y
  {
    hide AllItems;
    ItemsAreNumbered(r);
    var all := AllItems(r);
    var i :| 0 <= i < |all| && all[i] == x;
    var j :| 0 <= j < |all| && all[j] == y;
    assert Numbers(all)[i] == Numbers(all)[j];
  }

  /** What a report mentions is an item that is for its section. */
  lemma OnlyAtHome(c: Compiler, r: Request, activeOnly: bool, x: Item, m: nat)
    requires Valid(c) && x in AllItems(r) && m < |StructuredPacket(c, r, activeOnly).sections| == |Names(r, activeOnly)|
    requires Names(r, activeOnly)[m] != Home(x.kind)
    ensures !Mentions(StructuredPacket(c, r, activeOnly).sections[m], x.sequence)
  {
    hide Valid, Names, SectionInputs, FinalPlan, FitAll, AllItems, StructuredPacket, Numbers;
    ReportIsFit(c, r, activeOnly, m);
    var s, report := Names(r, activeOnly)[m], StructuredPacket(c, r, activeOnly).sections[m];
    FinalFits(c, r, activeOnly);
    FitInvents(c.counter, SectionInputs(r)[s], FinalPlan(c, r, activeOnly).budgets[s]);
    if Mentions(report, x.sequence) {
      var y :| (y in ItemsOf(report.kept) || y in ItemsOf(report.dropped)) && y.sequence == x.sequence;
      var items := SectionInputs(r)[s];
      var i :| 0 <= i < |items| && items[i].(line := y.line, truncated := y.truncated) == y;
      assert items[i] in items;
      InputsAtHome(r, s, items[i]);
      SameNumber(r, items[i], x);
      assert false;
    }
  }

  /** Every item of the request is reported: with its whole text, by the report of the section it is for; and its number
      occurs in no other report. */
  lemma EveryItemReported(c: Compiler, r: Request, activeOnly: bool, x: Item)
    requires Valid(c) && x in AllItems(r)
    ensures var sections := StructuredPacket(c, r, activeOnly).sections;
      exists n :: 0 <= n < |sections| && sections[n].name == Some(Home(x.kind)) && Holds(sections[n], x)
                  && forall m :: 0 <= m < |sections| && m != n ==> !Mentions(sections[m], x.sequence)
  {
    hide Valid, Names, SectionInputs, FinalPlan, FitAll, AllItems, Holds, Mentions, StructuredPacket, Accounted;
    var s := Home(x.kind);
    var n := HomeIsNamed(c, r, activeOnly, x);
    var sections := StructuredPacket(c, r, activeOnly).sections;
    HeldAtHome(c, r, activeOnly, x, n);
    forall m | 0 <= m < |sections| && m != n ensures !Mentions(sections[m], x.sequence) {
      ReportIsFit(c, r, activeOnly, n);
      ReportIsFit(c, r, activeOnly, m);
      NamesFacts(r, activeOnly);
      OnlyAtHome(c, r, activeOnly, x, m);
    }
  }

  // ---- the items are what was supplied ----

  function Supply(r: Request, kind: Kind): seq<Memory> {
    if kind in r.memories then r.memories[kind] else []
  }

  /** How many memories come before those of a tier: profiles, then semantic, procedural and episodic ones. */
  function Ahead(r: Request, kind: Kind): nat {
    match kind
    case Semantic => |Supply(r, AssetProfile)|
    case Procedural => |Supply(r, AssetProfile)| + |Supply(r, Semantic)|
    case Episodic => |Supply(r, AssetProfile)| + |Supply(r, Semantic)| + |Supply(r, Procedural)|
    case Evolution => |Supply(r, AssetProfile)| + |Supply(r, Semantic)| + |Supply(r, Procedural)| + |Supply(r, Episodic)|
    case _ => 0
  }

  lemma {:induction false} TierLength(kind: Kind, memories: seq<Memory>, n: nat)
    ensures |TierItems(kind, memories, n)| == |memories|
  {
    hide MemoryLine;
    if memories != [] {
      TierLength(kind, memories[1..], n + 1);
    }
  }

  lemma {:induction false} TierItemAt(kind: Kind, memories: seq<Memory>, n: nat, i: nat)
    requires i < |memories|
    ensures |TierItems(kind, memories, n)| == |memories|
    ensures TierItems(kind, memories, n)[i] == Item(n + i, kind, Some(memories[i].id), MemoryLine(kind, memories[i]), false, false)
    decreases i
  {
    hide MemoryLine;
    TierLength(kind, memories, n);
    if i > 0 {
      TierItemAt(kind, memories[1..], n + 1, i - 1);
    }
  }

  lemma OneTier(r: Request, kind: Kind, rest: seq<Kind>, n: nat)
    ensures var here := TierItems(kind, Supply(r, kind), n);
      |here| == |Supply(r, kind)| && MemoryItems(r, [kind] + rest, n) == here + MemoryItems(r, rest, n + |here|)
  {
    hide TierItems, EvolutionLine;
    TierLength(kind, Supply(r, kind), n);
    assert ([kind] + rest)[1..] == rest;
  }

  function SizeOf(r: Request, tiers: seq<Kind>): nat {
    if tiers == [] then 0 else |Supply(r, tiers[0])| + SizeOf(r, tiers[1..])
  }

  /** A tier's memories stand after those of the tiers before it. */
  lemma {:induction false} MemoryAt(r: Request, before: seq<Kind>, kind: Kind, after: seq<Kind>, n: nat, i: nat)
    requires i < |Supply(r, kind)|
    ensures var at := SizeOf(r, before) + i; var all := MemoryItems(r, before + [kind] + after, n); var m := Supply(r, kind)[i];
      at < |all| && all[at] == Item(n + at, kind, Some(m.id), MemoryLine(kind, m), false, false)
    decreases |before|
  {
    hide MemoryLine, TierItems, MemoryItems;
    if before == [] {
      assert before + [kind] + after == [kind] + after;
      OneTier(r, kind, after, n);
      TierItemAt(kind, Supply(r, kind), n, i);
    } else {
      var rest := before[1..] + [kind] + after;
      assert before + [kind] + after == [before[0]] + rest;
      OneTier(r, before[0], rest, n);
      MemoryAt(r, before[1..], kind, after, n + |Supply(r, before[0])|, i);
    }
  }

  lemma NoTiers(r: Request, n: nat)
    ensures MemoryItems(r, [], n)
      == if r.evolution.Some? then [Item(n, Evolution, None, EvolutionLine(r.evolution.value), false, false)] else []
  {
    hide EvolutionLine;
  }

  lemma {:induction false} MemoryCount(r: Request, tiers: seq<Kind>, n: nat)
    ensures var all := MemoryItems(r, tiers, n); var at := SizeOf(r, tiers);
      && |all| == at + (if r.evolution.Some? then 1 else 0)
      && (r.evolution.Some? ==> all[at] == Item(n + at, Evolution, None, EvolutionLine(r.evolution.value), false, false))
    decreases |tiers|
  {
    hide TierItems, EvolutionLine, MemoryItems;
    if tiers == [] {
      NoTiers(r, n);
    } else {
      assert tiers == [tiers[0]] + tiers[1..];
      OneTier(r, tiers[0], tiers[1..], n);
      MemoryCount(r, tiers[1..], n + |Supply(r, tiers[0])|);
    }
  }

  lemma SizeStep(r: Request, kind: Kind, rest: seq<Kind>)
    ensures SizeOf(r, [kind] + rest) == |Supply(r, kind)| + SizeOf(r, rest) && SizeOf(r, []) == 0
  {
    assert ([kind] + rest)[1..] == rest;
  }

  lemma SizesAhead(r: Request)
    ensures SizeOf(r, []) == 0 && SizeOf(r, [AssetProfile]) == Ahead(r, Semantic)
    ensures SizeOf(r, [AssetProfile, Semantic]) == Ahead(r, Procedural)
    ensures SizeOf(r, [AssetProfile, Semantic, Procedural]) == Ahead(r, Episodic) && SizeOf(r, TIERS) == Ahead(r, Evolution)
  {
    hide SizeOf;
    SizeStep(r, AssetProfile, [Semantic, Procedural, Episodic]);
    SizeStep(r, AssetProfile, [Semantic, Procedural]);
    SizeStep(r, AssetProfile, [Semantic]);
    SizeStep(r, AssetProfile, []);
    SizeStep(r, Semantic, [Procedural, Episodic]);
    SizeStep(r, Semantic, [Procedural]);
    SizeStep(r, Semantic, []);
    SizeStep(r, Procedural, [Episodic]);
    SizeStep(r, Procedural, []);
    SizeStep(r, Episodic, []);
    assert [AssetProfile] + [Semantic, Procedural, Episodic] == TIERS;
    assert [AssetProfile] + [Semantic, Procedural] == [AssetProfile, Semantic, Procedural];
    assert [AssetProfile] + [Semantic] == [AssetProfile, Semantic] && [AssetProfile] + [] == [AssetProfile];
    assert [Semantic] + [Procedural, Episodic] == [Semantic, Procedural, Episodic];
    assert [Semantic] + [Procedural] == [Semantic, Procedural] && [Semantic] + [] == [Semantic];
    assert [Procedural] + [Episodic] == [Procedural, Episodic] && [Procedural] + [] == [Procedural];
    assert [Episodic] + [] == [Episodic];
  }

  /** Every supplied memory is an item, in the order the tiers are listed and memories supplied, and so is the chain. */
  lemma EveryMemoryIsListed(r: Request, kind: Kind, i: nat)
    requires kind in {AssetProfile, Semantic, Procedural, Episodic} && i < |Supply(r, kind)|
    ensures var at := 1 + Ahead(r, kind) + i; var m := Supply(r, kind)[i];
      at < |AllItems(r)| && AllItems(r)[at] == Item(at, kind, Some(m.id), MemoryLine(kind, m), false, false)
  {
    hide MemoryItems, MemoryLine, BuildEvidence, SizeOf;
    SizesAhead(r);
    match kind {
      case AssetProfile =>
        assert TIERS == [] + [AssetProfile] + [Semantic, Procedural, Episodic];
        MemoryAt(r, [], AssetProfile, [Semantic, Procedural, Episodic], 1, i);
      case Semantic =>
        assert TIERS == [AssetProfile] + [Semantic] + [Procedural, Episodic];
        MemoryAt(r, [AssetProfile], Semantic, [Procedural, Episodic], 1, i);
      case Procedural =>
        assert TIERS == [AssetProfile, Semantic] + [Procedural] + [Episodic];
        MemoryAt(r, [AssetProfile, Semantic], Procedural, [Episodic], 1, i);
      case Episodic =>
        assert TIERS == [AssetProfile, Semantic, Procedural] + [Episodic] + [];
        MemoryAt(r, [AssetProfile, Semantic, Procedural], Episodic, [], 1, i);
    }
  }

  lemma {:induction false} EvidenceAt(rows: seq<EvidenceRow>, required: seq<string>, n: nat)
    ensures |EvidenceItems(rows, required, n)| == |rows|
    ensures forall i :: 0 <= i < |rows| ==>
      EvidenceItems(rows, required, n)[i] == Item(n + i, EvidenceItem, Some(rows[i].id), EvidenceLine(rows[i]), rows[i].id in required, false)
  {
    hide EvidenceLine;
    if rows != [] {
      EvidenceAt(rows[1..], required, n + 1);
    }
  }

  lemma SortedEvidence(r: Request) returns (rows: seq<EvidenceRow>)
    ensures BuildEvidence(r) == EvidenceItems(rows, r.required, 1 + |BuildMemory(r)|)
    ensures multiset(rows) == multiset(r.evidence) && |rows| == |r.evidence|
    ensures forall i, j :: 0 <= i < j < |rows| ==>
      (rows[j].id in r.required ==> rows[i].id in r.required)
      && ((rows[i].id in r.required <==> rows[j].id in r.required) ==> StringLe(rows[i].id, rows[j].id))
  {
    hide Sort, StringLe, EvidenceItems, BuildMemory;
    var le := (a: EvidenceRow, b: EvidenceRow) => EvidenceLe(r.required, a, b);
    rows := Sort(r.evidence, le);
    EvidenceOrderTotal(r.required);
    SortPermutes(r.evidence, le);
    SortSorts(r.evidence, le);
    assert forall i, j :: 0 <= i < j < |rows| ==> le(rows[i], rows[j]);
  }

  /** The rest of the items: the query first, the chain after the memories, and then the evidence, required rows first and
      otherwise by id. */
  lemma QueryChainAndEvidence(r: Request) returns (rows: seq<EvidenceRow>)
    ensures AllItems(r)[0] == Item(0, Query, None, r.query, true, false)
    ensures var at := 1 + Ahead(r, Evolution);
      && |AllItems(r)| == at + (if r.evolution.Some? then 1 else 0) + |r.evidence|
      && (r.evolution.Some? ==> AllItems(r)[at] == Item(at, Evolution, None, EvolutionLine(r.evolution.value), false, false))
    ensures multiset(rows) == multiset(r.evidence) && |rows| == |r.evidence|
    ensures forall i, j :: 0 <= i < j < |rows| ==>
      (rows[j].id in r.required ==> rows[i].id in r.required)
      && ((rows[i].id in r.required <==> rows[j].id in r.required) ==> StringLe(rows[i].id, rows[j].id))
    ensures forall i :: 0 <= i < |rows| ==> var at := |AllItems(r)| - |rows| + i;
      AllItems(r)[at] == Item(at, EvidenceItem, Some(rows[i].id), EvidenceLine(rows[i]), rows[i].id in r.required, false)
  {
    hide MemoryItems, EvidenceLine, EvolutionLine, StringLe, SizeOf, EvidenceItems;
    SizesAhead(r);
    MemoryCount(r, TIERS, 1);
    rows := SortedEvidence(r);
    EvidenceAt(rows, r.required, 1 + |BuildMemory(r)|);
  }

  lemma Regrouped(a: string, b: string, c: string, d: string)
    ensures a + b + c + d == a + (b + c + d)
  {
  }

  /** How a memory's line begins and goes on. */
  lemma MemoryText(kind: Kind, m: Memory)
    ensures var rest := (if m.timeline.Some? then " [" + m.timeline.value + "]" else "") + ": " + m.content;
      match kind
      case AssetProfile => MemoryLine(kind, m) == "asset_profile" + rest
      case Semantic => MemoryLine(kind, m) == "semantic" + rest
      case Procedural => MemoryLine(kind, m) == "procedural" + rest
      case Episodic => MemoryLine(kind, m) == "episodic" + rest
      case _ => true
  {
    var line := if m.timeline.Some? then " [" + m.timeline.value + "]" else "";
    Regrouped(TierName(kind), line, ": ", m.content);
  }

  // ---- the packet's other parts follow from its reports ----

  /** The headings and kept lines of the reports, in order. */
  function ReportedLines(sections: seq<SectionReport>): seq<string>
    requires forall n :: 0 <= n < |sections| ==> sections[n].name.Some?
  {
    if sections == [] then []
    else [Heading(sections[0].name.value)] + Lines(ItemsOf(sections[0].kept)) + ReportedLines(sections[1..])
  }

  function ReportedItems(sections: seq<SectionReport>): seq<Item> {
    if sections == [] then [] else ItemsOf(sections[0].kept) + ReportedItems(sections[1..])
  }

  lemma {:induction false} ReportsAreNamed(counter: string -> nat, names: seq<Section>, inputs: Inputs, plan: Plan)
    requires Consistent(inputs, plan) && forall s :: s in names ==> s in plan.fitted
    ensures var reports := SectionReports(counter, names, inputs, plan);
      && (forall n :: 0 <= n < |reports| ==> reports[n].name.Some?)
      && ReportedLines(reports) == SummaryParts(names, plan.fitted)
      && ReportedItems(reports) == KeptItems(names, plan.fitted)
  {
    hide Heading, Lines, Cost, Report;
    if names != [] {
      ReportsAreNamed(counter, names[1..], inputs, plan);
      ReportItems(counter, plan.fitted[names[0]].kept, None);
      var reports := SectionReports(counter, names, inputs, plan);
      assert reports[1..] == SectionReports(counter, names[1..], inputs, plan);
    }
  }

  /** Some item of one of the kinds carries this id. */
  ghost predicate Shows(items: seq<Item>, kinds: set<Kind>, id: string) {
    id != "" && exists x :: x in items && x.kind in kinds && x.itemId == Some(id)
  }

  lemma {:induction false} IncludedAre(items: seq<Item>, kinds: set<Kind>, id: string)
    ensures id in IncludedIds(items, kinds) <==> Shows(items, kinds, id)
  {
    if items != [] {
      IncludedAre(items[1..], kinds, id);
      assert items == [items[0]] + items[1..];
    }
  }

  /** The summary is the reported lines under their headings, the counts are the counter's, and the memory ids are those
      of the kept memories. */
  lemma PacketFollowsReports(c: Compiler, r: Request, activeOnly: bool, id: string)
    requires Valid(c)
    ensures var p := StructuredPacket(c, r, activeOnly);
      && (forall n :: 0 <= n < |p.sections| ==> p.sections[n].name.Some?)
      && p.summary == Join("\n", ReportedLines(p.sections))
      && p.tokensAfter == c.counter(p.summary) && p.tokensBefore == c.counter(Join(" ", Lines(AllItems(r))))
      && (id in p.includedMemoryIds <==> Shows(ReportedItems(p.sections), {AssetProfile, Procedural, Semantic, Episodic}, id))
      && (id in p.includedEvidenceIds <==> Shows(ReportedItems(p.sections), {EvidenceItem}, id))
  {
    hide Names, FinalPlan, SectionInputs, Valid, IncludedIds, SectionReports, SummaryParts, KeptItems, AllItems, Lines, ReportedItems,
         ReportedLines, Join;
    var names, plan := Names(r, activeOnly), FinalPlan(c, r, activeOnly);
    ReportsAreNamed(c.counter, names, SectionInputs(r), plan);
    IncludedAre(KeptItems(names, plan.fitted), {AssetProfile, Procedural, Semantic, Episodic}, id);
    IncludedAre(KeptItems(names, plan.fitted), {EvidenceItem}, id);
  }

  /** Tokens of the entries of a report. */
  function EntryTokens(list: seq<Provenance>): nat {
    if list == [] then 0 else list[0].estimatedTokens + EntryTokens(list[1..])
  }

  lemma {:induction false} EntriesCost(counter: string -> nat, items: seq<Item>, reason: Option<DropReason>)
    ensures EntryTokens(Report(counter, items, reason)) == Cost(counter, items)
  {
    if items != [] {
      EntriesCost(counter, items[1..], reason);
      CostSplits(counter, [items[0]], items[1..]);
      CostOfOne(counter, items[0]);
      assert [items[0]] + items[1..] == items;
    }
  }

  /** A report's counts: what its kept entries cost, by how much that exceeds its budget, and why entries were dropped. */
  lemma ReportCounts(c: Compiler, r: Request, activeOnly: bool, n: nat)
    requires Valid(c) && n < |StructuredPacket(c, r, activeOnly).sections|
    ensures var report := StructuredPacket(c, r, activeOnly).sections[n];
      && report.tokensAfter == EntryTokens(report.kept) && report.overflow == Max(0, report.tokensAfter - report.tokenBudget)
      && (forall p :: p in report.kept ==> p.estimatedTokens == c.counter(p.item.line) && p.reason == None)
      && (forall p :: p in report.dropped ==> p.estimatedTokens == c.counter(p.item.line) && p.reason == Some(SectionBudget))
  {
    hide Valid, Names, SectionInputs, FinalPlan, SectionReports, Cost, Report;
    var names, plan := Names(r, activeOnly), FinalPlan(c, r, activeOnly);
    ReportCount(c.counter, names, SectionInputs(r), plan);
    ReportAt(c.counter, names, SectionInputs(r), plan, n);
    var fit := plan.fitted[names[n]];
    EntriesCost(c.counter, fit.kept, None);
    ReportItems(c.counter, fit.kept, None);
    ReportItems(c.counter, fit.dropped, Some(SectionBudget));
  }

  /** The packet says in which mode it was compiled, as configured. */
  lemma ModeIsConfigured(c: Compiler, r: Request)
    requires Valid(c) && Compiled(c, r).Ok?
    ensures var p := Compiled(c, r).value;
      && (p.mode == DisabledMode <==> !c.enabled) && (p.mode == FlatMode <==> c.enabled && c.strategy == Flat)
      && (p.mode == AdaptiveMode <==> c.enabled && c.strategy == Adaptive)
      && (p.mode in {DisabledMode, FlatMode} ==> p.sections != [] && p.sections[0].name == None)
      && (p.mode == StructuredMode ==> |p.sections| == 8)
  {
    hide Select, SectionInputs, FinalPlan, Valid, SectionReports, SummaryParts, KeptItems, AllItems, Join, Report, ReportDrops;
    if c.enabled && c.strategy == Structured {
      ReportCount(c.counter, Names(r, false), SectionInputs(r), FinalPlan(c, r, false));
      AllActive(SECTION_NAMES, SectionInputs(r));
    }
  }

  // ---- flat and disabled packets ----

  ghost predicate AllFrom(some: seq<Item>, all: seq<Item>) {
    forall x :: x in some ==> x in all
  }

  lemma {:induction false} TakeFrom(items: seq<Item>, n: int)
    ensures AllFrom(Take(items, n), items)
  {
  }

  lemma SelectedFrom(c: Compiler, r: Request, limits: bool)
    ensures AllFrom(Select(c.counter, QueryItem(r.query), BuildMemory(r), BuildEvidence(r),
                           c.maxMemoryLines, c.maxEvidenceLines, c.tokenBudget, limits).0, AllItems(r))
  {
    hide BuildMemory, BuildEvidence, Trim, Take, CountRequired, KeepFirst, Capped;
    if limits {
      var memory, evidence := BuildMemory(r), BuildEvidence(r);
      var left := FlatShape(c, r);
      var cap := Max(c.maxEvidenceLines, CountRequired(evidence));
      TakeFrom(memory, c.maxMemoryLines);
      TakeFrom(evidence, cap);
      KeepFirstRequired(Take(memory, c.maxMemoryLines) + Take(evidence, cap), left);
    }
  }

  lemma NumbersOf(items: seq<Item>, n: nat)
    ensures n in Numbers(items) <==> exists x :: x in items && x.sequence == n
  {
    if x :| x in items && x.sequence == n {
      var i :| 0 <= i < |items| && items[i] == x;
      assert Numbers(items)[i] == n;
    }
  }

  lemma {:induction false} DropItems(counter: string -> nat, items: seq<Item>, why: Reasons)
    ensures ItemsOf(ReportDrops(counter, items, why)) == items
    ensures forall p :: p in ReportDrops(counter, items, why) ==>
      p.estimatedTokens == counter(p.item.line)
      && p.reason == if p.item.sequence in why then Some(why[p.item.sequence]) else None
  {
    if items != [] {
      DropItems(counter, items[1..], why);
      var n, rest := items[0].sequence, ReportDrops(counter, items[1..], why);
      var first := Provenance(items[0], counter(items[0].line), if n in why then Some(why[n]) else None);
      assert ItemsOf([first] + rest) == [items[0]] + ItemsOf(rest);
    }
  }

  lemma UnlimitedKeepsAll(c: Compiler, r: Request)
    ensures Select(c.counter, QueryItem(r.query), BuildMemory(r), BuildEvidence(r),
                   c.maxMemoryLines, c.maxEvidenceLines, c.tokenBudget, false).0 == AllItems(r)
  {
    hide BuildMemory, BuildEvidence;
  }

  lemma FlatSections(c: Compiler, r: Request, limits: bool)
    ensures var (selected, why) := Select(c.counter, QueryItem(r.query), BuildMemory(r), BuildEvidence(r),
                                          c.maxMemoryLines, c.maxEvidenceLines, c.tokenBudget, limits);
      var report := FlatPacket(c, r, limits).sections[0];
      && report.kept == Report(c.counter, selected, None)
      && report.dropped == ReportDrops(c.counter, Filter((item: Item) => item.sequence !in Numbers(selected), AllItems(r)), why)
  {
    hide BuildMemory, BuildEvidence, Select, Report, ReportDrops, IncludedIds, Join, Lines, AllItems, Numbers, Filter;
  }

  /** A flat packet has one report. It divides the request's items, whole, into kept and dropped ones, and the summary and
      the counts follow from it. */
  lemma FlatReportIs(c: Compiler, r: Request, limits: bool)
    ensures var p := FlatPacket(c, r, limits); var kept, dropped := ItemsOf(p.sections[0].kept), ItemsOf(p.sections[0].dropped);
      && |p.sections| == 1 && p.sections[0].name == None && p.sections[0].tokenBudget == c.tokenBudget
      && p.summary == Join("\n", Lines(kept)) && p.tokensAfter == p.sections[0].tokensAfter == c.counter(p.summary)
      && p.tokensBefore == p.sections[0].tokensBefore == c.counter(Join(" ", Lines(AllItems(r))))
      && p.sections[0].overflow == (if limits then Max(0, p.tokensAfter - c.tokenBudget) else 0)
      && (forall x :: x in AllItems(r) <==> x in kept || x in dropped) && (forall x :: x in kept ==> x !in dropped)
      && (!limits ==> kept == AllItems(r))
  {
    hide BuildMemory, BuildEvidence, Trim, Capped, Take, Report, ReportDrops, IncludedIds, Join, Lines, AllItems, Numbers, Select;
    var p := FlatPacket(c, r, limits);
    var (selected, why) := Select(c.counter, QueryItem(r.query), BuildMemory(r), BuildEvidence(r),
                                  c.maxMemoryLines, c.maxEvidenceLines, c.tokenBudget, limits);
    var lost := (item: Item) => item.sequence !in Numbers(selected);
    var dropped := Filter(lost, AllItems(r));
    ReportItems(c.counter, selected, None);
    DropItems(c.counter, dropped, why);
    FilterMembers(lost, AllItems(r));
    SelectedFrom(c, r, limits);
    forall x | x in AllItems(r) ensures x.sequence in Numbers(selected) <==> x in selected {
      NumbersOf(selected, x.sequence);
      if y :| y in selected && y.sequence == x.sequence {
        SameNumber(r, x, y);
      }
    }
    UnlimitedKeepsAll(c, r);
    FlatSections(c, r, limits);
  }
}
