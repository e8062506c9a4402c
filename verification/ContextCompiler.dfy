/** The budgeted context compiler: one packet per reasoning step (core/context/compiler.py). */
module ContextCompiler {
  import opened Basics
  import opened Sorting
  import opened TokenText
  import opened Apportionment
  import opened SectionFit
  import opened Reclaim
  import opened FlatContext

  datatype Strategy = Structured | Adaptive | Flat

  datatype Error =
    | TokenBudgetBelowOne
    | LineCapBelowOne
    | SectionsMissing
    | SectionBudgetNegative
    | SectionBudgetsExceedAvailable
    | EvidenceWithoutId

  datatype Compiler = Compiler(
    tokenBudget: nat, enabled: bool, maxMemoryLines: nat, maxEvidenceLines: nat,
    strategy: Strategy, sectionBudgets: map<Section, int>, counter: string -> nat)

  /** A memory with its rendered timeline, if it has one, and its rendered content; and an evidence row. */
  datatype Memory = Memory(id: string, timeline: Option<string>, content: string)
  datatype EvidenceRow = EvidenceRow(id: string, source: string, summary: string)

  /** evolution is the chain's rendering after its name, if the memories form a chain. */
  datatype Request = Request(
    query: string, memories: map<Kind, seq<Memory>>, evolution: Option<string>,
    evidence: seq<EvidenceRow>, required: seq<string>)

  datatype Provenance = Provenance(item: Item, estimatedTokens: nat, reason: Option<DropReason>)

  datatype SectionReport = SectionReport(
    name: Option<Section>, tokenBudget: int, tokensBefore: nat, tokensAfter: nat, overflow: int,
    kept: seq<Provenance>, dropped: seq<Provenance>)

  datatype Mode = DisabledMode | FlatMode | StructuredMode | AdaptiveMode

  datatype Packet = Packet(
    summary: string, includedMemoryIds: seq<string>, includedEvidenceIds: seq<string>,
    missingEvidence: seq<string>, tokensBefore: nat, tokensAfter: nat, mode: Mode,
    sections: seq<SectionReport>)

  // ---- construction ----

  function Title(name: Section): string {
    match name
    case CurrentState => "Current State"
    case TaskSpec => "Task Spec"
    case Assets => "Assets & Entities"
    case Workflow => "Workflow"
    case Errors => "Errors & Corrections"
    case Evidence => "Evidence"
    case Learnings => "Learnings"
    case KeyResults => "Key Results"
  }

  function Heading(name: Section): string {
    "## " + Title(name)
  }

  function HeadingTokens(counter: string -> nat, names: seq<Section>): nat {
    if names == [] then 0 else counter(Heading(names[0])) + HeadingTokens(counter, names[1..])
  }

  function Available(counter: string -> nat, tokenBudget: nat, names: seq<Section>): nat {
    Max(0, tokenBudget - HeadingTokens(counter, names))
  }

  function ResolvedBudgets(counter: string -> nat, tokenBudget: nat, supplied: Option<map<Section, int>>)
    : Result<map<Section, int>, Error>
  {
    WeightsAddUp();
    var available := Available(counter, tokenBudget, SECTION_NAMES);
    match supplied
    case None => Ok(Shares(SECTION_NAMES, available))
    case Some(budgets) =>
      if exists s :: s in SECTION_NAMES && s !in budgets then Err(SectionsMissing)
      else if exists s :: s in SECTION_NAMES && budgets[s] < 0 then Err(SectionBudgetNegative)
      else if Total(SECTION_NAMES, budgets) > available then Err(SectionBudgetsExceedAvailable)
      else Ok(budgets)
  }

  function Create(tokenBudget: int, enabled: bool, maxMemoryLines: int, maxEvidenceLines: int,
                  strategy: Strategy, supplied: Option<map<Section, int>>, counter: string -> nat)
    : Result<Compiler, Error>
  {
    if tokenBudget < 1 then Err(TokenBudgetBelowOne)
    else if maxMemoryLines < 1 || maxEvidenceLines < 1 then Err(LineCapBelowOne)
    else
      match ResolvedBudgets(counter, tokenBudget, supplied)
      case Err(e) => Err(e)
      case Ok(budgets) =>
        Ok(Compiler(tokenBudget, enabled, maxMemoryLines, maxEvidenceLines, strategy, budgets, counter))
  }

  ghost predicate Valid(c: Compiler) {
    && c.tokenBudget >= 1 && c.maxMemoryLines >= 1 && c.maxEvidenceLines >= 1
    && (forall s :: s in SECTION_NAMES ==> s in c.sectionBudgets && c.sectionBudgets[s] >= 0)
    && Total(SECTION_NAMES, c.sectionBudgets) <= Available(c.counter, c.tokenBudget, SECTION_NAMES)
  }

  /** Whichever way the budgets were obtained, they are nonnegative and fit under the headings;
      the default ones use up everything that is left. */
  lemma CreatedIsValid(tokenBudget: int, enabled: bool, maxMemoryLines: int, maxEvidenceLines: int,
                       strategy: Strategy, supplied: Option<map<Section, int>>, counter: string -> nat)
    ensures var r := Create(tokenBudget, enabled, maxMemoryLines, maxEvidenceLines, strategy, supplied, counter);
      r.Ok? ==>
        && Valid(r.value)
        && (supplied.None? ==>
              Total(SECTION_NAMES, r.value.sectionBudgets) == Available(counter, r.value.tokenBudget, SECTION_NAMES))
    ensures supplied.None? ==>
      (Create(tokenBudget, enabled, maxMemoryLines, maxEvidenceLines, strategy, supplied, counter).Ok?
       <==> tokenBudget >= 1 && maxMemoryLines >= 1 && maxEvidenceLines >= 1)
  {
    hide Total, WeightTotal, HeadingTokens, Shares;
    if supplied.None? && tokenBudget >= 1 {
      var available := Available(counter, tokenBudget, SECTION_NAMES);
      WeightsAddUp();
      SharesAddUp(SECTION_NAMES, available);
      SharesKeys(SECTION_NAMES, available);
      forall s | s in SECTION_NAMES ensures Shares(SECTION_NAMES, available)[s] >= 0 {
        SharesAreRounded(SECTION_NAMES, available, s);
      }
    }
  }

  // ---- items ----

  const TIERS: seq<Kind> := [AssetProfile, Semantic, Procedural, Episodic]

  function QueryItem(query: string): Item {
    Item(0, Query, None, query, true, false)
  }

  function TierName(kind: Kind): string {
    match kind
    case Query => "query"
    case AssetProfile => "asset_profile"
    case Procedural => "procedural"
    case Semantic => "semantic"
    case Episodic => "episodic"
    case Evolution => "evolution"
    case EvidenceItem => "evidence"
  }

  function MemoryLine(kind: Kind, m: Memory): string {
    TierName(kind) + (if m.timeline.Some? then " [" + m.timeline.value + "]" else "") + ": " + m.content
  }

  function EvolutionLine(details: string): string {
    "evolution_chain " + details
  }

  function TierItems(kind: Kind, memories: seq<Memory>, sequence: nat): seq<Item> {
    if memories == [] then []
    else [Item(sequence, kind, Some(memories[0].id), MemoryLine(kind, memories[0]), false, false)]
         + TierItems(kind, memories[1..], sequence + 1)
  }

  function MemoryItems(r: Request, tiers: seq<Kind>, sequence: nat): seq<Item> {
    if tiers == [] then
      match r.evolution
      case None => []
      case Some(details) => [Item(sequence, Evolution, None, EvolutionLine(details), false, false)]
    else
      var here := TierItems(tiers[0], if tiers[0] in r.memories then r.memories[tiers[0]] else [], sequence);
      here + MemoryItems(r, tiers[1..], sequence + |here|)
  }

  /** Required evidence first, then by id. */
  predicate EvidenceLe(required: seq<string>, a: EvidenceRow, b: EvidenceRow) {
    var ra, rb := a.id in required, b.id in required;
    (ra && !rb) || (ra == rb && StringLe(a.id, b.id))
  }

  function EvidenceLine(row: EvidenceRow): string {
    "[" + row.id + "] " + row.source + ": " + row.summary
  }

  function EvidenceItems(rows: seq<EvidenceRow>, required: seq<string>, sequence: nat): seq<Item> {
    if rows == [] then []
    else
      var row := rows[0];
      [Item(sequence, EvidenceItem, Some(row.id), EvidenceLine(row), row.id in required, false)]
      + EvidenceItems(rows[1..], required, sequence + 1)
  }

  function BuildMemory(r: Request): seq<Item> {
    MemoryItems(r, TIERS, 1)
  }

  function BuildEvidence(r: Request): seq<Item> {
    EvidenceItems(Sort(r.evidence, (a, b) => EvidenceLe(r.required, a, b)), r.required, 1 + |BuildMemory(r)|)
  }

  function OfKind(items: seq<Item>, kind: Kind): seq<Item> {
    Filter((item: Item) => item.kind == kind, items)
  }

  function SectionInputs(r: Request): (inputs: Inputs)
    ensures forall s :: s in SECTION_NAMES ==> s in inputs
  {
    var memory := BuildMemory(r);
    map[CurrentState := OfKind(memory, Evolution),
        TaskSpec := [QueryItem(r.query)],
        Assets := OfKind(memory, AssetProfile),
        Workflow := OfKind(memory, Procedural),
        Errors := [],
        Evidence := BuildEvidence(r),
        Learnings := OfKind(memory, Semantic),
        KeyResults := OfKind(memory, Episodic)]
  }

  // ---- the packet ----

  function Report(counter: string -> nat, items: seq<Item>, reason: Option<DropReason>): seq<Provenance> {
    if items == [] then []
    else [Provenance(items[0], counter(items[0].line), reason)] + Report(counter, items[1..], reason)
  }

  function ReportDrops(counter: string -> nat, items: seq<Item>, why: Reasons): seq<Provenance> {
    if items == [] then []
    else
      var n := items[0].sequence;
      [Provenance(items[0], counter(items[0].line), if n in why then Some(why[n]) else None)]
      + ReportDrops(counter, items[1..], why)
  }

  /** The ids of the kept items whose kind is one of kinds; empty ids are skipped. */
  function IncludedIds(items: seq<Item>, kinds: set<Kind>): seq<string> {
    if items == [] then []
    else
      var item := items[0];
      (if item.kind in kinds && item.itemId.Some? && item.itemId.value != "" then [item.itemId.value] else [])
      + IncludedIds(items[1..], kinds)
  }

  function MakePacket(counter: string -> nat, summary: string, kept: seq<Item>, required: seq<string>,
                      before: nat, mode: Mode, sections: seq<SectionReport>): Packet
  {
    var included := IncludedIds(kept, {EvidenceItem});
    Packet(summary, IncludedIds(kept, {AssetProfile, Procedural, Semantic, Episodic}), included,
           Filter(id => id !in included, required), before, counter(summary), mode, sections)
  }

  function AllItems(r: Request): seq<Item> {
    [QueryItem(r.query)] + BuildMemory(r) + BuildEvidence(r)
  }

  function TokensBefore(c: Compiler, r: Request): nat {
    Measure(c.counter, AllItems(r))
  }

  // ---- structured and adaptive ----

  function ActiveNames(names: seq<Section>, inputs: Inputs, activeOnly: bool): seq<Section>
    requires forall s :: s in names ==> s in inputs
  {
    if names == [] then []
    else
      (if activeOnly && inputs[names[0]] == [] then [] else [names[0]])
      + ActiveNames(names[1..], inputs, activeOnly)
  }

  function KeptItems(names: seq<Section>, fitted: map<Section, Fit>): seq<Item>
    requires forall s :: s in names ==> s in fitted
  {
    if names == [] then [] else fitted[names[0]].kept + KeptItems(names[1..], fitted)
  }

  function SummaryParts(names: seq<Section>, fitted: map<Section, Fit>): seq<string>
    requires forall s :: s in names ==> s in fitted
  {
    if names == [] then []
    else [Heading(names[0])] + Lines(fitted[names[0]].kept) + SummaryParts(names[1..], fitted)
  }

  function ReportSection(counter: string -> nat, name: Section, items: seq<Item>, budget: int, fit: Fit): SectionReport {
    var after := Cost(counter, fit.kept);
    SectionReport(Some(name), budget, Cost(counter, items), after, Max(0, after - budget),
                  Report(counter, fit.kept, None), Report(counter, fit.dropped, Some(SectionBudget)))
  }

  function SectionReports(counter: string -> nat, names: seq<Section>, inputs: Inputs, plan: Plan): seq<SectionReport>
    requires Consistent(inputs, plan) && forall s :: s in names ==> s in plan.fitted
  {
    if names == [] then []
    else
      var name := names[0];
      [ReportSection(counter, name, inputs[name], plan.budgets[name], plan.fitted[name])]
      + SectionReports(counter, names[1..], inputs, plan)
  }

  function Names(r: Request, activeOnly: bool): seq<Section> {
    ActiveNames(SECTION_NAMES, SectionInputs(r), activeOnly)
  }

  lemma {:induction false} ActiveAreListed(names: seq<Section>, inputs: Inputs, activeOnly: bool)
    requires forall s :: s in names ==> s in inputs
    ensures var active := ActiveNames(names, inputs, activeOnly);
      && (forall s :: s in active <==> s in names && (activeOnly ==> inputs[s] != []))
      && (Distinct(names) ==> Distinct(active))
  {
    if names != [] {
      assert names == [names[0]] + names[1..];
      ActiveAreListed(names[1..], inputs, activeOnly);
      assert Distinct(names) ==> Distinct(names[1..]) && names[0] !in names[1..];
      var rest := ActiveNames(names[1..], inputs, activeOnly);
      assert forall i :: 0 < i <= |rest| ==> ([names[0]] + rest)[i] == rest[i - 1];
    }
  }

  lemma {:induction false} WeightPositive(names: seq<Section>)
    requires names != []
    ensures WeightTotal(names) > 0
  {
  }

  /** Task Spec always holds the query, so there is always something to share between. */
  lemma NamesFacts(r: Request, activeOnly: bool)
    ensures var names := Names(r, activeOnly);
      && names != [] && Distinct(names) && WeightTotal(names) > 0
      && forall s :: s in names ==> s in SECTION_NAMES
    ensures r.evidence != [] ==> Evidence in Names(r, activeOnly)
  {
    hide WeightTotal, ActiveNames, BuildMemory, OfKind;
    WeightsAddUp();
    ActiveAreListed(SECTION_NAMES, SectionInputs(r), activeOnly);
    assert SECTION_NAMES[1] == TaskSpec && SECTION_NAMES[5] == Evidence;
    assert TaskSpec in Names(r, activeOnly);
    WeightPositive(Names(r, activeOnly));
    if r.evidence != [] {
      SortPermutes(r.evidence, (a, b) => EvidenceLe(r.required, a, b));
    }
  }

  /** The reservations the first pass works with. */
  function Reservations(c: Compiler, r: Request, activeOnly: bool): map<Section, int> {
    NamesFacts(r, activeOnly);
    var names := Names(r, activeOnly);
    if activeOnly then Shares(names, Available(c.counter, c.tokenBudget, names)) else c.sectionBudgets
  }

  lemma {:induction false} AllActive(names: seq<Section>, inputs: Inputs)
    requires forall s :: s in names ==> s in inputs
    ensures ActiveNames(names, inputs, false) == names
  {
    if names != [] {
      AllActive(names[1..], inputs);
    }
  }

  lemma ReservationsFit(c: Compiler, r: Request, activeOnly: bool)
    requires Valid(c)
    ensures var names, budgets := Names(r, activeOnly), Reservations(c, r, activeOnly);
      && Covers(names, SectionInputs(r), budgets)
      && Total(names, budgets) <= Available(c.counter, c.tokenBudget, names)
  {
    hide WeightTotal, ActiveNames, BuildMemory, BuildEvidence, OfKind, Total, HeadingTokens, Shares;
    NamesFacts(r, activeOnly);
    var names := Names(r, activeOnly);
    if activeOnly {
      SharesKeys(names, Available(c.counter, c.tokenBudget, names));
      SharesAddUp(names, Available(c.counter, c.tokenBudget, names));
    } else {
      AllActive(SECTION_NAMES, SectionInputs(r));
    }
  }

  /** The final budgets and fits of a structured packet. */
  function FinalPlan(c: Compiler, r: Request, activeOnly: bool): (plan: Plan)
    requires Valid(c)
    ensures Consistent(SectionInputs(r), plan)
    ensures plan.fitted.Keys == set s | s in Names(r, activeOnly)
  {
    ReservationsFit(c, r, activeOnly);
    var names := Names(r, activeOnly);
    LendAll(c.counter, SectionInputs(r),
            Start(c.counter, names, SectionInputs(r), Reservations(c, r, activeOnly), Available(c.counter, c.tokenBudget, names)),
            RECLAIM_ORDER)
  }

  function StructuredPacket(c: Compiler, r: Request, activeOnly: bool): Packet
    requires Valid(c)
  {
    var names, plan := Names(r, activeOnly), FinalPlan(c, r, activeOnly);
    MakePacket(c.counter, Join("\n", SummaryParts(names, plan.fitted)), KeptItems(names, plan.fitted), r.required,
               TokensBefore(c, r), if activeOnly then AdaptiveMode else StructuredMode,
               SectionReports(c.counter, names, SectionInputs(r), plan))
  }

  lemma SummaryGrows(names: seq<Section>, i: nat, fitted: map<Section, Fit>)
    requires i < |names| && forall s :: s in names ==> s in fitted
    ensures KeptItems(names[i..], fitted) == fitted[names[i]].kept + KeptItems(names[i + 1..], fitted)
    ensures SummaryParts(names[i..], fitted)
         == [Heading(names[i])] + Lines(fitted[names[i]].kept) + SummaryParts(names[i + 1..], fitted)
  {
    assert names[i..][0] == names[i] && names[i..][1..] == names[i + 1..];
  }

  lemma ReportsGrow(counter: string -> nat, names: seq<Section>, i: nat, inputs: Inputs, plan: Plan)
    requires i < |names| && Consistent(inputs, plan) && forall s :: s in names ==> s in plan.fitted
    ensures SectionReports(counter, names[i..], inputs, plan)
         == [ReportSection(counter, names[i], inputs[names[i]], plan.budgets[names[i]], plan.fitted[names[i]])]
            + SectionReports(counter, names[i + 1..], inputs, plan)
  {
    hide ReportSection;
    assert names[i..][0] == names[i] && names[i..][1..] == names[i + 1..];
  }

  lemma NothingLeft(counter: string -> nat, names: seq<Section>, inputs: Inputs, plan: Plan)
    requires Consistent(inputs, plan) && forall s :: s in names ==> s in plan.fitted
    ensures KeptItems(names[|names|..], plan.fitted) == []
    ensures SummaryParts(names[|names|..], plan.fitted) == []
    ensures SectionReports(counter, names[|names|..], inputs, plan) == []
  {
  }

  method Assemble(counter: string -> nat, names: seq<Section>, inputs: Inputs, plan: Plan)
    returns (kept: seq<Item>, parts: seq<string>, sections: seq<SectionReport>)
    requires Consistent(inputs, plan) && forall s :: s in names ==> s in plan.fitted
    ensures kept == KeptItems(names, plan.fitted)
    ensures parts == SummaryParts(names, plan.fitted)
    ensures sections == SectionReports(counter, names, inputs, plan)
  {
    hide Heading, SummaryParts, KeptItems, SectionReports, ReportSection, Lines;
    kept, parts, sections := [], [], [];
    assert names[0..] == names;
    for i := 0 to |names|
      invariant kept + KeptItems(names[i..], plan.fitted) == KeptItems(names, plan.fitted)
      invariant parts + SummaryParts(names[i..], plan.fitted) == SummaryParts(names, plan.fitted)
      invariant sections + SectionReports(counter, names[i..], inputs, plan) == SectionReports(counter, names, inputs, plan)
    {
      var name := names[i];
      SummaryGrows(names, i, plan.fitted);
      ReportsGrow(counter, names, i, inputs, plan);
      kept := kept + plan.fitted[name].kept;
      parts := parts + ([Heading(name)] + Lines(plan.fitted[name].kept));
      sections := sections + [ReportSection(counter, name, inputs[name], plan.budgets[name], plan.fitted[name])];
    }
    NothingLeft(counter, names, inputs, plan);
  }

  lemma {:induction false} ReportsIgnoreSpare(counter: string -> nat, names: seq<Section>, inputs: Inputs, a: Plan, b: Plan)
    requires Consistent(inputs, a) && a.budgets == b.budgets && a.fitted == b.fitted
    requires forall s :: s in names ==> s in a.fitted
    ensures SectionReports(counter, names, inputs, a) == SectionReports(counter, names, inputs, b)
  {
    if names != [] {
      ReportsIgnoreSpare(counter, names[1..], inputs, a, b);
    }
  }

  method CompileStructured(c: Compiler, r: Request, activeOnly: bool) returns (packet: Packet)
    requires Valid(c)
    ensures packet == StructuredPacket(c, r, activeOnly)
  {
    hide WeightTotal, ActiveNames, BuildMemory, BuildEvidence, OfKind, Total, HeadingTokens, Shares, Heading, LendAll, Cost;
    hide SummaryParts, KeptItems, SectionReports, SectionInputs, MakePacket, TokensBefore, Join, Start;
    ReservationsFit(c, r, activeOnly);
    NamesFacts(r, activeOnly);
    var inputs := SectionInputs(r);
    var names := ActiveNames(SECTION_NAMES, inputs, activeOnly);
    var available := Available(c.counter, c.tokenBudget, names);
    var budgets := c.sectionBudgets;
    if activeOnly {
      budgets := Apportion(names, available);
    }
    var effective, fitted := FitSections(c.counter, names, inputs, budgets, available);
    var plan := Plan(effective, fitted, 0);
    assert effective == FinalPlan(c, r, activeOnly).budgets && fitted == FinalPlan(c, r, activeOnly).fitted;
    var kept, parts, sections := Assemble(c.counter, names, inputs, plan);
    ReportsIgnoreSpare(c.counter, names, inputs, plan, FinalPlan(c, r, activeOnly));
    packet := MakePacket(c.counter, Join("\n", parts), kept, r.required, TokensBefore(c, r),
                         if activeOnly then AdaptiveMode else StructuredMode, sections);
  }

  // ---- flat and disabled ----

  function FlatPacket(c: Compiler, r: Request, limits: bool): Packet {
    var memory, evidence := BuildMemory(r), BuildEvidence(r);
    var (selected, why) := Select(c.counter, QueryItem(r.query), memory, evidence,
                                  c.maxMemoryLines, c.maxEvidenceLines, c.tokenBudget, limits);
    var numbers := Numbers(selected);
    var dropped := Filter((item: Item) => item.sequence !in numbers, AllItems(r));
    var summary := Join("\n", Lines(selected));
    var after := c.counter(summary);
    var before := TokensBefore(c, r);
    var section := SectionReport(None, c.tokenBudget, before, after,
                                 if limits then Max(0, after - c.tokenBudget) else 0,
                                 Report(c.counter, selected, None), ReportDrops(c.counter, dropped, why));
    MakePacket(c.counter, summary, selected, r.required, before, if limits then FlatMode else DisabledMode, [section])
  }

  method CompileFlat(c: Compiler, r: Request, limits: bool) returns (packet: Packet)
    ensures packet == FlatPacket(c, r, limits)
  {
    hide Select, BuildMemory, BuildEvidence, Numbers, Filter, Report, ReportDrops, MakePacket, Join, Lines, TokensBefore;
    var selected, why := SelectItems(c.counter, QueryItem(r.query), BuildMemory(r), BuildEvidence(r),
                                     c.maxMemoryLines, c.maxEvidenceLines, c.tokenBudget, limits);
    var numbers := Numbers(selected);
    var dropped := Filter((item: Item) => item.sequence !in numbers, AllItems(r));
    var summary := Join("\n", Lines(selected));
    var after := c.counter(summary);
    var before := TokensBefore(c, r);
    var section := SectionReport(None, c.tokenBudget, before, after,
                                 if limits then Max(0, after - c.tokenBudget) else 0,
                                 Report(c.counter, selected, None), ReportDrops(c.counter, dropped, why));
    packet := MakePacket(c.counter, summary, selected, r.required, before,
                         if limits then FlatMode else DisabledMode, [section]);
  }

  // ---- compile ----

  function Compiled(c: Compiler, r: Request): Result<Packet, Error>
    requires Valid(c)
  {
    if exists i :: 0 <= i < |r.evidence| && r.evidence[i].id == "" then Err(EvidenceWithoutId)
    else if !c.enabled then Ok(FlatPacket(c, r, false))
    else if c.strategy == Flat then Ok(FlatPacket(c, r, true))
    else Ok(StructuredPacket(c, r, c.strategy == Adaptive))
  }

  method Compile(c: Compiler, r: Request) returns (result: Result<Packet, Error>)
    requires Valid(c)
    ensures result == Compiled(c, r)
  {
    hide FlatPacket, StructuredPacket, Valid;
    for i := 0 to |r.evidence|
      invariant forall j :: 0 <= j < i ==> r.evidence[j].id != ""
    {
      if r.evidence[i].id == "" {
        return Err(EvidenceWithoutId);
      }
    }
    if !c.enabled {
      var packet := CompileFlat(c, r, false);
      return Ok(packet);
    }
    if c.strategy == Flat {
      var packet := CompileFlat(c, r, true);
      return Ok(packet);
    }
    var packet := CompileStructured(c, r, c.strategy == Adaptive);
    return Ok(packet);
  }
}
