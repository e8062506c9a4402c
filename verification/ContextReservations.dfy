/** For which reservations supplied by the caller the compiler's comment on overflow is right
    (core/context/compiler.py). */
module ContextReservations {
  import opened Basics
  import opened TokenText
  import opened Apportionment
  import opened SectionFit
  import opened Reclaim
  import opened ContextCompiler
  import opened ContextGuarantees
  import opened ContextOverflow
  import opened ContextLimits

  // ---- the requests ----

  /** What the entries of a memory's timeline are called. */
  const FIELDS: set<string> := {"first", "last", "event", "relations", "traces", "quality"}

  ghost predicate IsRendered(m: Memory) {
    m.timeline.Some? ==> exists field :: field in FIELDS && field + "=" <= m.timeline.value
  }

  ghost predicate AllRendered(memories: seq<Memory>) {
    forall i :: 0 <= i < |memories| ==> IsRendered(memories[i])
  }

  /** The memories' timelines are rendered as the compiler does, and no memories form an evolution chain. */
  ghost predicate WithoutChain(r: Request) {
    r.evolution == None && forall kind :: kind in r.memories ==> AllRendered(r.memories[kind])
  }

  const TIER_SECTIONS: set<Section> := {Assets, Workflow, Learnings, KeyResults}

  ghost predicate TierLine(x: Item) {
    !x.required && Visible(x) && exists kind, m :: kind in TIERS && IsRendered(m) && x.line == MemoryLine(kind, m)
  }

  lemma {:induction false} TierLines(kind: Kind, memories: seq<Memory>, n: nat)
    requires kind in TIERS && AllRendered(memories)
    ensures forall x :: x in TierItems(kind, memories, n) ==> TierLine(x)
  {
    hide IsRendered, Visible;
    TiersVisible(kind, memories, n);
    if memories != [] {
      TierLines(kind, memories[1..], n + 1);
      assert IsRendered(memories[0]);
      assert MemoryLine(kind, memories[0]) == TierItems(kind, memories, n)[0].line;
      assert TierItems(kind, memories, n)[0] in TierItems(kind, memories, n);
    }
  }

  function Stored(r: Request, kind: Kind): seq<Memory> {
    if kind in r.memories then r.memories[kind] else []
  }

  lemma ItemsByTier(r: Request, tiers: seq<Kind>, n: nat)
    requires r.evolution == None
    ensures tiers == [] ==> MemoryItems(r, tiers, n) == []
    ensures tiers != [] ==>
      var here := TierItems(tiers[0], Stored(r, tiers[0]), n);
      MemoryItems(r, tiers, n) == here + MemoryItems(r, tiers[1..], n + |here|)
  {
    hide TierItems;
  }

  lemma NoneRendered()
    ensures AllRendered([])
  {
  }

  lemma {:induction false} MemoryLines(r: Request, tiers: seq<Kind>, n: nat)
    requires WithoutChain(r) && forall kind :: kind in tiers ==> kind in TIERS
    ensures forall x :: x in MemoryItems(r, tiers, n) ==> TierLine(x)
  {
    hide TierLine, AllRendered, MemoryItems, TierItems;
    ItemsByTier(r, tiers, n);
    if tiers != [] {
      var memories := Stored(r, tiers[0]);
      assert AllRendered(memories) by { NoneRendered(); }
      assert tiers[0] in tiers;
      TierLines(tiers[0], memories, n);
      MemoryLines(r, tiers[1..], n + |TierItems(tiers[0], memories, n)|);
    }
  }

  lemma TierInputs(r: Request, s: Section)
    requires WithoutChain(r) && s in TIER_SECTIONS
    ensures s in SectionInputs(r) && forall x :: x in SectionInputs(r)[s] ==> TierLine(x)
  {
    hide TierLine, MemoryItems, WithoutChain;
    MemoryLines(r, TIERS, 1);
    FilterMembers((x: Item) => x.kind == KindOf(s), BuildMemory(r));
  }

  // ---- a memory's line at two and at three tokens ----

  lemma TierEndsInWord(kind: Kind)
    requires kind in TIERS
    ensures TierName(kind) != "" && ClassOf(TierName(kind)[|TierName(kind)| - 1]) == Word && ClassOf(':') == Other
  {
  }

  /** What one optional line uses. */
  lemma OneFit(x: Item, budget: nat)
    requires budget > 0
    ensures FitAll(DefaultTokenCounter, [x], budget).used
      == if x.required || DefaultTokenCounter(x.line) <= budget then DefaultTokenCounter(x.line)
         else DefaultTokenCounter(Split(DefaultTokenCounter, x.line, budget).0)
  {
    hide DefaultTokenCounter, Split;
    CountOfEmpty();
    assert [x][..0] == [];
  }

  /** Without a timeline the colon is part of the first word. */
  lemma PlainLine(kind: Kind, m: Memory, x: Item)
    requires kind in TIERS && m.timeline.None? && x.line == MemoryLine(kind, m)
    ensures FitAll(DefaultTokenCounter, [x], 2).used >= 2
  {
    hide DefaultTokenCounter, TierName, Split;
    var name := TierName(kind) + ":";
    TierIsWord(kind);
    OneRun(":", Other);
    CountAcrossSeam(TierName(kind), ":") by { TierEndsInWord(kind); }
    assert x.line == name + " " + m.content;
    BlankCounts(name, m.content);
    if DefaultTokenCounter(x.line) > 2 {
      KeepsBefore(x.line, name, m.content, 2);
    }
    OneFit(x, 2);
  }

  lemma TimedText(name: string, field: string, value: string, content: string)
    ensures name + (" [" + (field + "=" + value) + "]") + ": " + content == name + " " + ("[" + field + "=") + (value + "]: " + content)
  {
    assert " [" + (field + "=" + value) + "]" == " " + ("[" + field + "=") + value + "]";
    assert "]" + ": " == "]: ";
  }

  lemma FieldChars(field: string)
    requires field in FIELDS
    ensures field != "" && forall i :: 0 <= i < |field| ==> 'a' <= field[i] <= 'z'
  {
  }

  lemma FieldName(field: string)
    requires field in FIELDS
    ensures DefaultTokenCounter("[" + field + "=") == 3
    ensures var u := "[" + field + "="; forall i :: 0 <= i < |u| ==> IsAscii(u[i]) && u[i] != ' '
  {
    hide DefaultTokenCounter;
    FieldChars(field);
    OneRun("[", Other);
    OneRun(field, Word);
    OneRun("=", Other);
    CountAcrossSeam("[", field);
    CountAcrossSeam("[" + field, "=");
  }

  /** With a timeline it is cut back to the tier's name, at three tokens as at two. */
  lemma TimedLine(kind: Kind, m: Memory, x: Item)
    requires kind in TIERS && m.timeline.Some? && IsRendered(m) && !x.required && x.line == MemoryLine(kind, m)
    ensures FitAll(DefaultTokenCounter, [x], 3).used == 1
  {
    hide DefaultTokenCounter, TierName, Split, IsSpace, FitAll, FIELDS;
    var field :| field in FIELDS && field + "=" <= m.timeline.value;
    var value := m.timeline.value[|field| + 1..];
    assert m.timeline.value == field + "=" + value;
    var w, u, rest := TierName(kind), "[" + field + "=", value + "]: " + m.content;
    TimedText(w, field, value, m.content);
    TierIsWord(kind);
    FieldName(field);
    CutBack(x.line, w, u, rest, 3);
    OneFit(x, 3);
  }

  lemma FitLast(items: seq<Item>, budget: int)
    requires items != []
    ensures FitAll(DefaultTokenCounter, items, budget)
      == FitStep(DefaultTokenCounter, FitAll(DefaultTokenCounter, items[..|items| - 1], budget), items[|items| - 1], budget)
  {
  }

  lemma LastLine(fit: Fit, x: Item)
    requires fit.used >= 1 && Visible(x)
    ensures FitStep(DefaultTokenCounter, fit, x, 2).used >= 2
  {
    hide DefaultTokenCounter, Split;
    VisibleCosts(x.line);
    VisibleHead(x.line, 1);
    CountOfEmpty();
  }

  /** Two lines use two tokens whenever there are two. */
  lemma TwoLines(items: seq<Item>)
    requires |items| >= 2 && forall x :: x in items ==> Visible(x)
    ensures FitAll(DefaultTokenCounter, items, 2).used >= 2
  {
    hide DefaultTokenCounter, Split, Visible, FitAll;
    var init, last := items[..|items| - 1], items[|items| - 1];
    assert forall x :: x in init ==> x in items;
    SomethingIsKept(init, 2);
    LastLine(FitAll(DefaultTokenCounter, init, 2), last);
    assert FitAll(DefaultTokenCounter, items, 2) == FitStep(DefaultTokenCounter, FitAll(DefaultTokenCounter, init, 2), last, 2) by {
      FitLast(items, 2);
    }
  }

  /** A section of memories that leaves one of two tokens unused leaves two of three unused. */
  lemma StaysShort(items: seq<Item>)
    requires items != [] && (forall x :: x in items ==> TierLine(x)) && FitAll(DefaultTokenCounter, items, 2).used == 1
    ensures FitAll(DefaultTokenCounter, items, 3).used == 1
  {
    hide DefaultTokenCounter, FitAll, Visible, IsRendered, MemoryLine;
    assert forall x :: x in items ==> Visible(x);
    if |items| >= 2 {
      TwoLines(items);
    } else {
      var x := items[0];
      assert items == [x] && x in items;
      var kind, m :| kind in TIERS && IsRendered(m) && x.line == MemoryLine(kind, m);
      if m.timeline.None? {
        PlainLine(kind, m, x);
      } else {
        TimedLine(kind, m, x);
      }
    }
  }

  // ---- two tokens, both for one tier ----

  /** The last borrower had left something unused. */
  lemma BorrowerHadSlack(counter: string -> nat, inputs: Inputs, budgets: map<Section, int>, last: Plan, order: seq<Section>, s: Section)
    requires PrefixMonotone(counter) && Consistent(inputs, last) && BorrowedLast(counter, inputs, budgets, last, order, s)
    requires RequiredFirst(inputs[s]) && budgets[s] >= 0
    ensures FitAll(counter, inputs[s], budgets[s]).used < budgets[s]
  {
    hide FitAll, PrefixMonotone, RequiredFirst, RequiredCost;
    FitWithinBudget(counter, inputs[s], budgets[s]);
    FitWithinBudget(counter, inputs[s], last.budgets[s]);
  }

  lemma LittleToLend(counter: string -> nat, inputs: Inputs, budgets: map<Section, int>, s: Section, available: nat)
    requires Covers(SECTION_NAMES, inputs, budgets) && FitAll(counter, inputs[s], budgets[s]).used >= 1
    ensures Start(counter, SECTION_NAMES, inputs, budgets, available).reclaimable <= Max(0, available - 1)
  {
    hide FitAll, Total;
    Listed(s);
    var fitted := FirstPass(counter, SECTION_NAMES, inputs, budgets);
    TotalNonnegativeAt(SECTION_NAMES, map o | o in SECTION_NAMES :: fitted[o].used, s);
  }

  /** The tier's section cannot have borrowed last: one more token changes nothing there. */
  lemma NoLoanHelps(inputs: Inputs, budgets: map<Section, int>, last: Plan, s: Section)
    requires Covers(SECTION_NAMES, inputs, budgets) && Consistent(inputs, last) && s in last.budgets && s in budgets && s in inputs
    requires last.budgets[s] - budgets[s] <= Start(DefaultTokenCounter, SECTION_NAMES, inputs, budgets, 2).reclaimable
    requires budgets[s] == 2 && RequiredFirst(inputs[s]) && forall x :: x in inputs[s] ==> TierLine(x)
    ensures !BorrowedLast(DefaultTokenCounter, inputs, budgets, last, RECLAIM_ORDER, s)
  {
    hide DefaultTokenCounter, FitAll, PrefixMonotone, RequiredFirst, Start, Visible;
    DefaultIsPrefixMonotone();
    NothingFromNothing(DefaultTokenCounter, inputs[s], 2);
    if BorrowedLast(DefaultTokenCounter, inputs, budgets, last, RECLAIM_ORDER, s) {
      BorrowerHadSlack(DefaultTokenCounter, inputs, budgets, last, RECLAIM_ORDER, s);
      SomethingIsKept(inputs[s], 2);
      LittleToLend(DefaultTokenCounter, inputs, budgets, s, 2);
      StaysShort(inputs[s]);
    }
  }

  lemma TwoTokensSuffice(c: Compiler, r: Request, s: Section)
    requires Valid(c) && c.counter == DefaultTokenCounter && c.tokenBudget == 25
    requires WithoutChain(r) && s in TIER_SECTIONS && s in c.sectionBudgets && c.sectionBudgets[s] == 2
    ensures OnlyRequiredOverflows(c, r, false)
  {
    hide DefaultTokenCounter, HeadingTokens, Total, SectionInputs, FitAll, LendAll, PrefixMonotone, RequiredFirst, BorrowedLast,
         TotalExcess, Names, WithoutChain, TierLine, Slack, Excess, Start;
    var inputs, b := SectionInputs(r), c.sectionBudgets;
    StructuredNames(r);
    FinalPlanIs(c, r, false);
    BudgetFits(c, s);
    InputsRequiredFirst(r);
    DefaultIsPrefixMonotone();
    NamesFacts(r, false);
    ReservationsFit(c, r, false);
    TierInputs(r, s);
    var last := FinalPlan(c, r, false);
    var borrower := ReclaimBound(c.counter, SECTION_NAMES, inputs, b, 2);
    if !OnlyRequiredOverflows(c, r, false) {
      BorrowerHadSlack(c.counter, inputs, b, last, RECLAIM_ORDER, borrower);
      if borrower != s {
        TotalOfTwo(SECTION_NAMES, b, s, borrower);
        assert false;
      } else {
        NoLoanHelps(inputs, b, last, s);
      }
    }
  }

  // ---- the limit ----

  lemma OverlongWithoutChain(s: Section, cost: nat)
    requires s in LENDERS
    ensures WithoutChain(OverlongRequest(s, cost))
  {
    var m := OverlongMemory(if cost >= 3 then cost - 3 else 0);
    assert "event" in FIELDS && "event" + "=" <= m.timeline.value;
    assert IsRendered(m);
  }

  lemma {:induction false} TierKinds(kind: Kind, memories: seq<Memory>, n: nat)
    ensures forall x :: x in TierItems(kind, memories, n) ==> x.kind == kind
  {
    hide MemoryLine;
    if memories != [] {
      TierKinds(kind, memories[1..], n + 1);
    }
  }

  lemma {:induction false} NoEvolution(r: Request, tiers: seq<Kind>, n: nat)
    requires r.evolution == None && Evolution !in tiers
    ensures forall x :: x in MemoryItems(r, tiers, n) ==> x.kind != Evolution
  {
    hide MemoryItems, TierItems;
    ItemsByTier(r, tiers, n);
    if tiers != [] {
      TierKinds(tiers[0], Stored(r, tiers[0]), n);
      NoEvolution(r, tiers[1..], n + |TierItems(tiers[0], Stored(r, tiers[0]), n)|);
    }
  }

  /** Without a chain, only evidence, memories and the query have content. */
  lemma NothingElse(r: Request)
    requires WithoutChain(r)
    ensures forall s: Section :: s in SectionInputs(r) && (SectionInputs(r)[s] != [] ==> s == TaskSpec || s in LENDERS)
  {
    hide MemoryItems, BuildEvidence, TierLine, IsRendered;
    EachListed();
    NoEvolution(r, TIERS, 1);
    FilterNone((x: Item) => x.kind == Evolution, BuildMemory(r));
  }

  lemma SmallOrTwo(c: Compiler, r: Request)
    requires Valid(c) && c.counter == DefaultTokenCounter && WithoutChain(r)
    requires forall s :: s in LENDERS && s in c.sectionBudgets && c.sectionBudgets[s] >= 2 ==> s != Evidence && c.tokenBudget <= 25
    ensures OnlyRequiredOverflows(c, r, false)
  {
    hide Valid, OnlyRequiredOverflows, DefaultTokenCounter, SectionInputs, TierLine, IsRendered;
    if s :| s in LENDERS && s in c.sectionBudgets && c.sectionBudgets[s] >= 2 {
      BudgetFits(c, s);
      TwoTokensSuffice(c, r, s);
    } else {
      StructuredNames(r);
      NothingElse(r);
      SmallReservationsSuffice(c, r, false);
    }
  }

  lemma LargeOvershoots(c: Compiler, s: Section) returns (r: Request)
    requires Valid(c) && c.counter == DefaultTokenCounter
    requires s in LENDERS && s in c.sectionBudgets && c.sectionBudgets[s] >= 2 && (s == Evidence || c.tokenBudget >= 26)
    ensures WithoutChain(r) && !OnlyRequiredOverflows(c, r, false)
  {
    hide Valid, OnlyRequiredOverflows, DefaultTokenCounter, OverlongRequest, WithoutChain, HeadingTokens;
    BudgetFits(c, s);
    r := StructuredOvershoots(c, s);
    OverlongWithoutChain(s, Available(c.counter, c.tokenBudget, SECTION_NAMES) + c.sectionBudgets[s] - 2);
  }

  lemma EachHasBudget(c: Compiler)
    requires Valid(c)
    ensures forall s: Section :: s in c.sectionBudgets
  {
    EachListed();
  }

  /** Whatever reservations the caller supplied: over all requests whose memories form no chain, the comment is right if
      and only if evidence is reserved at most one token, and so is each tier of memories, unless the token budget is at
      most 25: two tokens beside the headings. */
  lemma SuppliedLimit(c: Compiler)
    requires Valid(c) && c.counter == DefaultTokenCounter
    ensures forall s: Section :: s in c.sectionBudgets
    ensures (forall r | WithoutChain(r) :: OnlyRequiredOverflows(c, r, false))
      <==> c.sectionBudgets[Evidence] <= 1 && (c.tokenBudget <= 25 || forall s :: s in TIER_SECTIONS ==> c.sectionBudgets[s] <= 1)
  {
    EachHasBudget(c);
    hide Valid, OnlyRequiredOverflows, DefaultTokenCounter, WithoutChain;
    var b := c.sectionBudgets;
    if s :| s in LENDERS && b[s] >= 2 && (s == Evidence || c.tokenBudget >= 26) {
      var r := LargeOvershoots(c, s);
      assert s == Evidence || s in TIER_SECTIONS;
    } else {
      assert Evidence in LENDERS && TIER_SECTIONS <= LENDERS;
      forall r | WithoutChain(r) ensures OnlyRequiredOverflows(c, r, false) {
        SmallOrTwo(c, r);
      }
    }
  }
}
