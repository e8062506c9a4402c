/** When the compiler's comment on overflow is right: that beyond the available content tokens there is only what
    required items cost (core/context/compiler.py). All results are about compilers and requests. */
module ContextOverflow {
  import opened Basics
  import opened Sorting
  import opened TokenText
  import opened Apportionment
  import opened SectionFit
  import opened Reclaim
  import opened ContextCompiler
  import opened ContextGuarantees

  /** The comment's promise for one request. */
  ghost predicate OnlyRequiredOverflows(c: Compiler, r: Request, activeOnly: bool)
    requires Valid(c)
  {
    var names := Names(r, activeOnly);
    FinalPlanIs(c, r, activeOnly);
    TotalUsed(names, FinalPlan(c, r, activeOnly).fitted)
      <= Available(c.counter, c.tokenBudget, names) + TotalExcess(c.counter, names, SectionInputs(r), Reservations(c, r, activeOnly))
  }

  /** In the first pass, every section that drops something has used its whole reservation. */
  ghost predicate DroppersAreFull(c: Compiler, r: Request, activeOnly: bool)
    requires Valid(c)
  {
    FinalPlanIs(c, r, activeOnly);
    var inputs, budgets := SectionInputs(r), Reservations(c, r, activeOnly);
    forall s :: s in Names(r, activeOnly) ==>
      FitAll(c.counter, inputs[s], budgets[s]).dropped != [] ==> FitAll(c.counter, inputs[s], budgets[s]).used >= budgets[s]
  }

  /** For one request: if no section that drops something leaves budget unused, the comment is right. */
  lemma CommentHoldsWithoutSlack(c: Compiler, r: Request, activeOnly: bool)
    requires Valid(c) && PrefixMonotone(c.counter) && DroppersAreFull(c, r, activeOnly)
    ensures OnlyRequiredOverflows(c, r, activeOnly)
  {
    hide Valid, Names, SectionInputs, Reservations, LendAll, FitAll, Total, HeadingTokens, DefaultTokenCounter, PrefixMonotone,
         RequiredFirst, TotalExcess;
    FinalPlanIs(c, r, activeOnly);
    ReservationsFit(c, r, activeOnly);
    NamesFacts(r, activeOnly);
    InputsRequiredFirst(r);
    NoSlackNoOvershoot(c.counter, Names(r, activeOnly), SectionInputs(r), Reservations(c, r, activeOnly),
                       Available(c.counter, c.tokenBudget, Names(r, activeOnly)));
  }

  // ---- a reservation of one token is never left over ----

  ghost predicate Visible(x: Item) {
    x.line != "" && !IsSpace(x.line[0])
  }

  lemma {:induction false} EvidenceVisible(rows: seq<EvidenceRow>, required: seq<string>, n: nat)
    ensures forall x :: x in EvidenceItems(rows, required, n) ==> Visible(x)
  {
    if rows != [] {
      EvidenceVisible(rows[1..], required, n + 1);
      assert EvidenceLine(rows[0])[0] == '[';
    }
  }

  lemma {:induction false} TiersVisible(kind: Kind, memories: seq<Memory>, n: nat)
    ensures forall x :: x in TierItems(kind, memories, n) ==> Visible(x)
  {
    if memories != [] {
      TiersVisible(kind, memories[1..], n + 1);
      assert 'a' <= TierName(kind)[0] <= 'z';
      assert MemoryLine(kind, memories[0])[0] == TierName(kind)[0];
    }
  }

  lemma EvolutionVisible(n: nat, details: string)
    ensures Visible(Item(n, Evolution, None, EvolutionLine(details), false, false))
  {
    assert EvolutionLine(details)[0] == 'e';
  }

  lemma {:induction false} MemoryVisible(r: Request, tiers: seq<Kind>, n: nat)
    ensures forall x :: x in MemoryItems(r, tiers, n) ==> Visible(x)
  {
    hide Visible, TierItems;
    if tiers == [] {
      if r.evolution.Some? {
        EvolutionVisible(n, r.evolution.value);
      }
    } else {
      var memories := if tiers[0] in r.memories then r.memories[tiers[0]] else [];
      TiersVisible(tiers[0], memories, n);
      MemoryVisible(r, tiers[1..], n + |TierItems(tiers[0], memories, n)|);
    }
  }

  function KindOf(s: Section): Kind {
    match s
    case CurrentState => Evolution
    case Assets => AssetProfile
    case Workflow => Procedural
    case Learnings => Semantic
    case KeyResults => Episodic
    case _ => Query
  }

  /** Apart from the query, every line begins with a visible character. */
  lemma LinesVisible(r: Request, s: Section)
    requires s != TaskSpec
    ensures s in SectionInputs(r) && forall x :: x in SectionInputs(r)[s] ==> Visible(x)
  {
    hide Visible, MemoryItems, EvidenceItems, Sort, EvidenceLe;
    EvidenceVisible(SortedRows(r), r.required, 1 + |BuildMemory(r)|);
    MemoryVisible(r, TIERS, 1);
    var kind := KindOf(s);
    OfKindPlain(r, kind);
  }

  /** A visible line costs something, and so does its head at any positive budget. */
  lemma VisibleCosts(t: string)
    requires t != "" && !IsSpace(t[0])
    ensures DefaultTokenCounter(t) >= 1
  {
    CountOfPrefix(t, 1);
    assert Starts(t, 1) == 1 by { assert Starts(t, 0) == 0; }
  }

  lemma HeadStays(t: string)
    requires t != "" && !IsSpace(t[0])
    ensures DefaultTokenCounter(RStrip(t)) >= 1
  {
    hide DefaultTokenCounter;
    assert RStrip(t) != "";
    VisibleCosts(RStrip(t));
  }

  lemma VisibleHead(t: string, budget: int)
    requires t != "" && !IsSpace(t[0]) && budget >= 1
    ensures DefaultTokenCounter(Split(DefaultTokenCounter, t, budget).0) >= 1
  {
    hide DefaultTokenCounter, IsSpace;
    VisibleCosts(t);
    if DefaultTokenCounter(t) > budget {
      var at := Bisect(DefaultTokenCounter, t, budget, 0, |t|);
      DefaultIsPrefixMonotone();
      CountOfPrefix(t, 0);
      CountOfPrefix(t, 1);
      assert t[..0] == "";
      LongestPrefix(DefaultTokenCounter, t, budget);
      var cut := Retreat(t, at);
      HeadStays(t[..cut]);
    }
  }

  lemma CountOfEmpty()
    ensures DefaultTokenCounter("") == 0
  {
  }

  lemma {:induction false} SomethingIsKept(items: seq<Item>, budget: int)
    requires items != [] && budget >= 1 && forall x :: x in items ==> Visible(x)
    ensures FitAll(DefaultTokenCounter, items, budget).used >= 1
  {
    hide DefaultTokenCounter, Split;
    var init, last := items[..|items| - 1], items[|items| - 1];
    assert last in items;
    VisibleCosts(last.line);
    if init == [] {
      assert FitAll(DefaultTokenCounter, init, budget) == Fit([], [], 0);
      VisibleHead(last.line, budget);
      CountOfEmpty();
    } else {
      assert forall x :: x in init ==> x in items;
      SomethingIsKept(init, budget);
    }
  }

  lemma NothingFromNothing(counter: string -> nat, items: seq<Item>, budget: int)
    ensures items == [] ==> FitAll(counter, items, budget) == Fit([], [], 0)
  {
  }

  lemma QueryIsKept(c: Compiler, r: Request, budget: int)
    ensures TaskSpec in SectionInputs(r) && FitAll(c.counter, SectionInputs(r)[TaskSpec], budget).dropped == []
  {
    hide BuildMemory, BuildEvidence, FitAll;
    AllRequired(c.counter, [QueryItem(r.query)], budget);
  }

  /** If no section but the query's has a reservation above one token, the comment is right for the request. */
  lemma SmallReservationsSuffice(c: Compiler, r: Request, activeOnly: bool)
    requires Valid(c) && c.counter == DefaultTokenCounter
    requires forall s :: s in Names(r, activeOnly) && s != TaskSpec && s in SectionInputs(r) && SectionInputs(r)[s] != [] ==>
      s in Reservations(c, r, activeOnly) ==> Reservations(c, r, activeOnly)[s] <= 1
    ensures OnlyRequiredOverflows(c, r, activeOnly)
  {
    hide Valid, Names, SectionInputs, Reservations, FitAll, DefaultTokenCounter, OnlyRequiredOverflows, Visible;
    FinalPlanIs(c, r, activeOnly);
    var inputs, budgets := SectionInputs(r), Reservations(c, r, activeOnly);
    forall s | s in Names(r, activeOnly) && FitAll(c.counter, inputs[s], budgets[s]).dropped != []
      ensures FitAll(c.counter, inputs[s], budgets[s]).used >= budgets[s]
    {
      NothingFromNothing(c.counter, inputs[s], budgets[s]);
      if s == TaskSpec {
        QueryIsKept(c, r, budgets[s]);
      } else if budgets[s] >= 1 {
        LinesVisible(r, s);
        SomethingIsKept(inputs[s], budgets[s]);
      }
    }
    DefaultIsPrefixMonotone();
    CommentHoldsWithoutSlack(c, r, activeOnly);
  }

  // ---- a line that is cut back to its first word ----

  /** w is one token, u a text without blanks that costs cost tokens, v what follows. */
  ghost predicate ThreeParts(t: string, w: string, u: string, v: string, cost: nat) {
    && t == w + " " + u + " " + v
    && w != "" && !IsSpace(w[|w| - 1]) && DefaultTokenCounter(w) == 1
    && (forall i :: 0 <= i < |u| ==> IsAscii(u[i]) && u[i] != ' ') && DefaultTokenCounter(u) == cost
    && DefaultTokenCounter(v) >= 1
  }

  ghost predicate Overlong(t: string, cost: nat) {
    exists w, u, v :: ThreeParts(t, w, u, v, cost)
  }

  lemma BlankCounts(a: string, b: string)
    ensures DefaultTokenCounter(a + " " + b) == DefaultTokenCounter(a) + DefaultTokenCounter(b)
  {
    hide DefaultTokenCounter;
    CountOfJoin(' ', [a, b]);
    assert [a, b][1..] == [b] && [b][1..] == [];
    assert SumOf(DefaultTokenCounter, [b]) == DefaultTokenCounter(b);
    assert Join([' '], [a, b]) == a + " " + b;
  }

  lemma SplitHead(t: string, budget: nat)
    ensures budget > 0 && t != "" && DefaultTokenCounter(t) > budget ==>
      Split(DefaultTokenCounter, t, budget).0 == RStrip(t[..Retreat(t, Bisect(DefaultTokenCounter, t, budget, 0, |t|))])
  {
    hide DefaultTokenCounter, Bisect, RStrip, LStrip, Retreat;
  }

  /** A small budget is cut back to the first blank: one token is used, however large the budget. */
  lemma CutBack(t: string, w: string, u: string, rest: string, budget: nat)
    requires t == w + " " + u + rest && w != "" && !IsSpace(w[|w| - 1]) && DefaultTokenCounter(w) == 1
    requires (forall i :: 0 <= i < |u| ==> IsAscii(u[i]) && u[i] != ' ') && 1 <= budget <= DefaultTokenCounter(u)
    ensures DefaultTokenCounter(t) > budget && Split(DefaultTokenCounter, t, budget).0 == w
  {
    hide DefaultTokenCounter, Bisect, PrefixMonotone, IsSpace, RFindBlank, Split;
    BlankCounts(w, u);
    BlankCounts(w, "");
    CountOfEmpty();
    assert t[..|w| + 1] == w + " " + "" && t[..|w| + 1 + |u|] == w + " " + u;
    CountOfPrefix(t, |w| + 1 + |u|);
    DefaultIsPrefixMonotone();
    LongestPrefix(DefaultTokenCounter, t, budget);
    SplitHead(t, budget);
    var at := Bisect(DefaultTokenCounter, t, budget, 0, |t|);
    assert |w| < at < |w| + 1 + |u| && t[|w|] == ' ';
    assert forall i :: |w| < i < at ==> t[i] == u[i - |w| - 1];
    assert RFindBlank(t, at) == |w| && IsAscii(t[at - 1]);
    assert t[..|w|] == w;
  }

  /** What stands before a blank and fits is kept. */
  lemma KeepsBefore(t: string, p: string, rest: string, budget: nat)
    requires t == p + " " + rest && p != "" && DefaultTokenCounter(p) <= budget < DefaultTokenCounter(t) && budget >= 1
    ensures DefaultTokenCounter(Split(DefaultTokenCounter, t, budget).0) >= DefaultTokenCounter(p)
  {
    hide DefaultTokenCounter, Bisect, PrefixMonotone, IsSpace, RFindBlank, Split, RStrip;
    BlankCounts(p, "");
    CountOfEmpty();
    assert t[..|p| + 1] == p + " " + "" && t[..|p|] == p && t[|p|] == ' ';
    DefaultIsPrefixMonotone();
    LongestPrefix(DefaultTokenCounter, t, budget);
    SplitHead(t, budget);
    var cut := Retreat(t, Bisect(DefaultTokenCounter, t, budget, 0, |t|));
    assert cut >= |p|;
    StripCounts(t[..cut], "");
    assert t[..cut][..|p|] == p;
    CountOfPrefix(t[..cut], |p|);
  }

  /** With just enough tokens for the first two parts, they are kept. */
  lemma Refill(t: string, w: string, u: string, v: string, cost: nat)
    requires ThreeParts(t, w, u, v, cost)
    ensures DefaultTokenCounter(t) > 1 + cost
    ensures DefaultTokenCounter(Split(DefaultTokenCounter, t, 1 + cost).0) == 1 + cost
  {
    hide DefaultTokenCounter, PrefixMonotone, IsSpace, Split;
    BlankCounts(w, u);
    BlankCounts(w + " " + u, v);
    KeepsBefore(t, w + " " + u, v, 1 + cost);
    DefaultIsPrefixMonotone();
    SplitHeadFits(DefaultTokenCounter, t, 1 + cost);
    CountOfEmpty();
  }

  lemma OverlongFits(item: Item, cost: nat, budget: nat)
    requires !item.required && Overlong(item.line, cost) && 1 <= budget <= cost
    ensures FitAll(DefaultTokenCounter, [item], budget).used == 1
    ensures FitAll(DefaultTokenCounter, [item], budget).dropped != []
    ensures FitAll(DefaultTokenCounter, [item], 1 + cost).used == 1 + cost
    ensures Cost(DefaultTokenCounter, [item]) > 1 + cost
  {
    hide DefaultTokenCounter, Split;
    var w, u, v :| ThreeParts(item.line, w, u, v, cost);
    assert item.line == w + " " + u + (" " + v);
    CutBack(item.line, w, u, " " + v, budget);
    Refill(item.line, w, u, v, cost);
    CostOfOne(DefaultTokenCounter, item);
    CountOfEmpty();
    assert [item][..0] == [];
  }

  // ---- the sections that stay out of it ----

  ghost predicate Quiet(items: seq<Item>) {
    forall i :: 0 <= i < |items| ==> items[i].required && items[i].line == ""
  }

  lemma {:induction false} EmptyLinesCostNothing(items: seq<Item>)
    requires Quiet(items)
    ensures Cost(DefaultTokenCounter, items) == 0
  {
    hide DefaultTokenCounter;
    if items != [] {
      assert items[0].line == "" && DefaultTokenCounter("") == 0 by { CountOfEmpty(); }
      EmptyLinesCostNothing(items[1..]);
      CostOfOne(DefaultTokenCounter, items[0]);
      CostSplits(DefaultTokenCounter, [items[0]], items[1..]);
      assert [items[0]] + items[1..] == items;
    }
  }

  lemma {:induction false} QuietIsFree(items: seq<Item>, budget: int)
    requires Quiet(items)
    ensures FitAll(DefaultTokenCounter, items, budget) == Fit(items, [], 0) && RequiredCost(DefaultTokenCounter, items) == 0
  {
    hide FitAll, DefaultTokenCounter;
    AllRequired(DefaultTokenCounter, items, budget);
    EmptyLinesCostNothing(items);
  }

  lemma {:induction false} TotalOfOne(names: seq<Section>, m: map<Section, int>, name: Section)
    requires Distinct(names) && name in names && forall s :: s in names ==> s in m && (s != name ==> m[s] == 0)
    ensures Total(names, m) == m[name]
  {
    if names[0] == name {
      TotalConstant(names[1..], m, 0);
    } else {
      TotalOfOne(names[1..], m, name);
    }
  }

  /** A lone overlong line, in the one section s that is not quiet; what is left to lend is just enough for its first two
      parts. */
  ghost predicate LoneLine(names: seq<Section>, inputs: Inputs, budgets: map<Section, int>, available: nat, s: Section) {
    && Distinct(names) && s in names && Covers(names, inputs, budgets)
    && (forall o :: o in names && o != s ==> Quiet(inputs[o]))
    && (forall o :: o in names ==> budgets[o] >= 0)
    && 2 <= budgets[s] <= available
    && |inputs[s]| == 1 && !inputs[s][0].required && Overlong(inputs[s][0].line, available + budgets[s] - 2)
  }

  lemma NoneRequired(item: Item)
    requires !item.required
    ensures RequiredCost(DefaultTokenCounter, [item]) == 0
  {
    assert Filter(IsRequired, [item]) == Filter(IsRequired, []);
  }

  lemma LoneFits(names: seq<Section>, inputs: Inputs, budgets: map<Section, int>, available: nat, s: Section, o: Section)
    requires LoneLine(names, inputs, budgets, available, s) && o in names
    ensures var fit := FitAll(DefaultTokenCounter, inputs[o], budgets[o]);
      && fit.used == (if o == s then 1 else 0) && (o != s ==> fit.dropped == [])
      && Excess(DefaultTokenCounter, inputs, budgets, o) == 0
  {
    hide FitAll, DefaultTokenCounter, Quiet, RequiredCost, Overlong;
    if o == s {
      var item := inputs[s][0];
      assert inputs[s] == [item];
      OverlongFits(item, available + budgets[s] - 2, budgets[s]);
      NoneRequired(item);
    } else {
      QuietIsFree(inputs[o], budgets[o]);
    }
  }

  lemma LoneStart(names: seq<Section>, inputs: Inputs, budgets: map<Section, int>, available: nat, s: Section)
    requires LoneLine(names, inputs, budgets, available, s)
    ensures var start := Start(DefaultTokenCounter, names, inputs, budgets, available);
      && start.reclaimable == available - 1 && Consistent(inputs, start) && start.budgets == budgets
      && (forall o :: o in start.fitted <==> o in names)
      && (forall o :: o in start.fitted ==> start.fitted[o].used == if o == s then 1 else 0)
      && (forall o :: o in start.fitted && o != s ==> start.fitted[o].dropped == [])
      && start.fitted[s] == FitAll(DefaultTokenCounter, inputs[s], budgets[s])
    ensures Slack(DefaultTokenCounter, inputs, budgets, s) == budgets[s] - 1
    ensures TotalExcess(DefaultTokenCounter, names, inputs, budgets) == 0
  {
    hide FitAll, DefaultTokenCounter, Quiet, Excess, Total, Overlong;
    forall o | o in names
      ensures FitAll(DefaultTokenCounter, inputs[o], budgets[o]).used == if o == s then 1 else 0
      ensures o != s ==> FitAll(DefaultTokenCounter, inputs[o], budgets[o]).dropped == []
      ensures Excess(DefaultTokenCounter, inputs, budgets, o) == 0
    {
      LoneFits(names, inputs, budgets, available, s, o);
    }
    var fitted := FirstPass(DefaultTokenCounter, names, inputs, budgets);
    TotalOfOne(names, map o | o in names :: fitted[o].used, s);
    TotalOfOne(names, map o | o in names :: Excess(DefaultTokenCounter, inputs, budgets, o), s);
  }

  lemma LoneLoan(names: seq<Section>, inputs: Inputs, budgets: map<Section, int>, available: nat, s: Section, start: Plan)
    requires LoneLine(names, inputs, budgets, available, s)
    requires Consistent(inputs, start) && start.budgets == budgets && start.reclaimable == available - 1 && s in start.fitted
    requires start.fitted[s] == FitAll(DefaultTokenCounter, inputs[s], budgets[s])
    ensures var next := Lend(DefaultTokenCounter, inputs, start, s);
      && next.reclaimable == 0 && next.fitted == start.fitted[s := next.fitted[s]]
      && next.fitted[s].used == available + budgets[s] - 1
  {
    hide FitAll, DefaultTokenCounter, Quiet, Cost, Overlong;
    var item := inputs[s][0];
    assert inputs[s] == [item];
    OverlongFits(item, available + budgets[s] - 2, budgets[s]);
    UsedIsCost(DefaultTokenCounter, [item], budgets[s]);
    UsedIsCost(DefaultTokenCounter, [item], available + budgets[s] - 1);
  }

  /** Lending reaches the one section that dropped something with everything still to lend. */
  lemma {:induction false} LoneBorrower(counter: string -> nat, inputs: Inputs, plan: Plan, order: seq<Section>, s: Section)
    requires Consistent(inputs, plan) && s in order
    requires forall o :: o in plan.fitted && o != s ==> plan.fitted[o].dropped == []
    requires Lend(counter, inputs, plan, s).reclaimable == 0
    ensures LendAll(counter, inputs, plan, order) == Lend(counter, inputs, plan, s)
    decreases |order|
  {
    hide FitAll, Cost;
    if order[0] == s {
      Exhausted(counter, inputs, Lend(counter, inputs, plan, s), order[1..]);
    } else {
      LoneBorrower(counter, inputs, plan, order[1..], s);
    }
  }

  lemma LoneNames(names: seq<Section>, inputs: Inputs, budgets: map<Section, int>, available: nat, s: Section)
    requires LoneLine(names, inputs, budgets, available, s)
    ensures Distinct(names) && s in names && s in RECLAIM_ORDER && s in budgets && Covers(names, inputs, budgets)
  {
  }

  lemma LoneOvershoot(names: seq<Section>, inputs: Inputs, budgets: map<Section, int>, available: nat, s: Section)
    requires LoneLine(names, inputs, budgets, available, s)
    ensures var last := LendAll(DefaultTokenCounter, inputs, Start(DefaultTokenCounter, names, inputs, budgets, available), RECLAIM_ORDER);
      TotalUsed(names, last.fitted) == available + budgets[s] - 1
  {
    hide FitAll, DefaultTokenCounter, LoneLine, Start, Lend, LendAll, Total, Slack, TotalExcess, RECLAIM_ORDER, Distinct;
    LoneNames(names, inputs, budgets, available, s);
    var start := Start(DefaultTokenCounter, names, inputs, budgets, available);
    LoneStart(names, inputs, budgets, available, s);
    LoneLoan(names, inputs, budgets, available, s, start);
    var next := Lend(DefaultTokenCounter, inputs, start, s);
    LoneBorrower(DefaultTokenCounter, inputs, start, RECLAIM_ORDER, s);
    TotalOfOne(names, map o | o in names :: next.fitted[o].used, s);
  }

  // ---- the requests ----

  /** m characters that each begin a piece, letters and commas by turns. */
  function Tail(m: nat): (t: string)
    ensures |t| == m
  {
    seq(m, i => if i % 2 == 0 then 'b' else ',')
  }

  /** The sections that hold evidence or memories of one tier. */
  const LENDERS: set<Section> := {Evidence, Assets, Workflow, Learnings, KeyResults}

  /** An evidence id that begins with a blank; an event type with a blank in it. */
  function OverlongRow(m: nat): EvidenceRow {
    EvidenceRow(" " + Tail(m) + " c", "", "")
  }

  function OverlongMemory(m: nat): Memory {
    Memory("m", Some("event=" + Tail(m) + " c"), "")
  }

  /** A request with an empty query and one line, in section s, whose second part costs cost tokens. */
  function OverlongRequest(s: Section, cost: nat): Request {
    if s == Evidence then Request("", map[], None, [OverlongRow(cost)], [])
    else Request("", map[KindOf(s) := [OverlongMemory(if cost >= 3 then cost - 3 else 0)]], None, [], [])
  }

  lemma {:induction false} TailStarts(m: nat, n: nat)
    requires n <= m
    ensures Starts(Tail(m), n) == n
  {
    if n > 0 {
      TailStarts(m, n - 1);
    }
  }

  lemma TailChars(m: nat)
    ensures forall i :: 0 <= i < m ==> IsAscii(Tail(m)[i]) && Tail(m)[i] != ' '
  {
  }

  lemma TailCounts(m: nat)
    ensures DefaultTokenCounter(Tail(m)) == m
    ensures forall i :: 0 <= i < m ==> IsAscii(Tail(m)[i]) && Tail(m)[i] != ' '
  {
    hide DefaultTokenCounter, Tail;
    TailStarts(m, m);
    CountOfPrefix(Tail(m), m);
    assert Tail(m)[..m] == Tail(m);
    TailChars(m);
  }

  /** A single run of letters or of signs is one token. */
  lemma OneRun(t: string, k: CharClass)
    requires t != "" && k in {Word, Other} && forall i :: 0 <= i < |t| ==> ClassOf(t[i]) == k
    ensures DefaultTokenCounter(t) == 1
  {
    hide ClassOf;
    PiecesAreStarts(t, 0);
    assert Starts(t, 1) == 1 by { assert Starts(t, 0) == 0; }
    StartsInRun(t, 1, |t|);
  }

  lemma NotBlank()
    ensures !IsSpace('[') && !IsSpace('c')
  {
  }

  lemma BracketCosts()
    ensures DefaultTokenCounter("[") == 1
  {
    OneRun("[", Other);
  }

  lemma EvidenceIsOverlong(m: nat)
    ensures Overlong(EvidenceLine(OverlongRow(m)), m)
  {
    hide DefaultTokenCounter, IsSpace, IsAscii;
    var w, u, v := "[", Tail(m), "c] : ";
    assert !IsSpace('[') by { NotBlank(); }
    TailCounts(m);
    BracketCosts();
    VisibleCosts(v) by { NotBlank(); }
    assert EvidenceLine(OverlongRow(m)) == w + " " + u + " " + v;
    assert ThreeParts(EvidenceLine(OverlongRow(m)), w, u, v, m);
  }

  lemma FieldCosts()
    ensures DefaultTokenCounter("[event=") == 3
  {
    hide DefaultTokenCounter;
    assert "[event=" == "[" + ("event" + "=");
    OneRun("[", Other);
    OneRun("event", Word);
    OneRun("=", Other);
    CountAcrossSeam("event", "=");
    CountAcrossSeam("[", "event" + "=");
  }

  lemma FieldWithTail(m: nat)
    ensures DefaultTokenCounter("[event=" + Tail(m)) == 3 + m
  {
    hide DefaultTokenCounter;
    FieldCosts();
    TailCounts(m);
    CountAcrossSeam("[event=", Tail(m));
  }

  lemma TierIsWord(kind: Kind)
    requires kind in TIERS
    ensures TierName(kind) != "" && DefaultTokenCounter(TierName(kind)) == 1 && !IsSpace(TierName(kind)[|TierName(kind)| - 1])
  {
    hide DefaultTokenCounter;
    OneRun(TierName(kind), Word);
  }

  lemma MemoryIsOverlong(kind: Kind, m: nat)
    requires kind in TIERS
    ensures Overlong(MemoryLine(kind, OverlongMemory(m)), 3 + m)
  {
    hide DefaultTokenCounter, IsSpace, TierName, Tail;
    var w, u, v := TierName(kind), "[event=" + Tail(m), "c]: ";
    TierIsWord(kind);
    FieldWithTail(m);
    TailCounts(m);
    VisibleCosts(v) by { NotBlank(); }
    assert " [" + ("event=" + Tail(m) + " c") + "]" == " " + u + " c]";
    assert MemoryLine(kind, OverlongMemory(m)) == w + " " + u + " " + v;
    assert ThreeParts(MemoryLine(kind, OverlongMemory(m)), w, u, v, 3 + m);
  }

  lemma OneTierItem(kind: Kind, m: Memory, n: nat)
    ensures TierItems(kind, [m], n) == [Item(n, kind, Some(m.id), MemoryLine(kind, m), false, false)]
  {
    assert [m][1..] == [];
  }

  lemma {:induction false} OneMemory(r: Request, kind: Kind, m: Memory, tiers: seq<Kind>, n: nat)
    requires r.memories == map[kind := [m]] && r.evolution == None && Distinct(tiers)
    ensures MemoryItems(r, tiers, n)
      == if kind in tiers then [Item(n, kind, Some(m.id), MemoryLine(kind, m), false, false)] else []
  {
    hide MemoryLine;
    if tiers != [] {
      var here := TierItems(tiers[0], if tiers[0] in r.memories then r.memories[tiers[0]] else [], n);
      assert tiers == [tiers[0]] + tiers[1..];
      OneMemory(r, kind, m, tiers[1..], n + |here|);
      if tiers[0] == kind {
        OneTierItem(kind, m, n);
        assert kind !in tiers[1..];
      } else {
        assert here == [];
      }
    }
  }

  lemma NoMemories(r: Request, tiers: seq<Kind>, n: nat)
    requires r.memories == map[] && r.evolution == None
    ensures MemoryItems(r, tiers, n) == []
  {
  }

  lemma SortOne<T>(x: T, le: (T, T) -> bool)
    ensures Sort([x], le) == [x]
  {
    assert [x][1..] == [];
  }

  lemma OneRow(r: Request, row: EvidenceRow)
    requires r.evidence == [row] && r.required == []
    ensures |BuildEvidence(r)| == 1 && BuildEvidence(r)[0].line == EvidenceLine(row) && !BuildEvidence(r)[0].required
  {
    hide BuildMemory, EvidenceLe, EvidenceLine;
    SortOne(row, (a, b) => EvidenceLe(r.required, a, b));
    assert SortedRows(r) == [row] && [row][1..] == [];
    var n := 1 + |BuildMemory(r)|;
    assert BuildEvidence(r) == EvidenceItems([row], r.required, n);
    assert EvidenceItems([row][1..], r.required, n + 1) == [];
  }

  lemma OfKindOne(item: Item, kind: Kind)
    ensures OfKind([item], kind) == if item.kind == kind then [item] else []
  {
    if item.kind == kind {
      FilterAll((x: Item) => x.kind == kind, [item]);
    } else {
      FilterNone((x: Item) => x.kind == kind, [item]);
    }
  }

  /** The sections of a request with one memory. */
  lemma MemoryInputs(r: Request, s: Section, item: Item)
    requires s in LENDERS && s != Evidence && item.kind == KindOf(s) && r.query == ""
    requires BuildMemory(r) == [item] && BuildEvidence(r) == []
    ensures forall o :: o in SECTION_NAMES ==>
      SectionInputs(r)[o] == if o == TaskSpec then [QueryItem("")] else if o == s then [item] else []
  {
    hide BuildMemory, BuildEvidence, OfKind;
    OfKindOne(item, Evolution);
    OfKindOne(item, AssetProfile);
    OfKindOne(item, Procedural);
    OfKindOne(item, Semantic);
    OfKindOne(item, Episodic);
  }

  lemma EvidenceInputs(r: Request)
    requires BuildMemory(r) == [] && r.query == ""
    ensures forall o :: o in SECTION_NAMES ==>
      SectionInputs(r)[o] == if o == TaskSpec then [QueryItem("")] else if o == Evidence then BuildEvidence(r) else []
  {
    hide BuildMemory, BuildEvidence;
  }

  lemma QuietQuery()
    ensures Quiet([QueryItem("")]) && Quiet([])
  {
  }

  lemma NoRows(r: Request)
    requires r.evidence == []
    ensures BuildEvidence(r) == []
  {
  }

  lemma OverlongInputs(s: Section, cost: nat)
    requires s in LENDERS && (s != Evidence ==> cost >= 3)
    ensures var inputs := SectionInputs(OverlongRequest(s, cost));
      && (forall o :: o in SECTION_NAMES ==> o in inputs && (o != s ==> Quiet(inputs[o])))
      && (forall o :: o in SECTION_NAMES ==> (inputs[o] != [] <==> o in {TaskSpec, s}))
      && |inputs[s]| == 1 && !inputs[s][0].required && Overlong(inputs[s][0].line, cost)
  {
    hide EvidenceLe, EvidenceLine, MemoryLine, Overlong, Tail, MemoryItems, Sort, SectionInputs, Quiet, BuildEvidence;
    var r := OverlongRequest(s, cost);
    Listed(s);
    QuietQuery();
    if s == Evidence {
      NoMemories(r, TIERS, 1);
      OneRow(r, OverlongRow(cost));
      EvidenceIsOverlong(cost);
      EvidenceInputs(r);
    } else {
      var m := OverlongMemory(cost - 3);
      OneMemory(r, KindOf(s), m, TIERS, 1);
      MemoryIsOverlong(KindOf(s), cost - 3);
      NoRows(r);
      MemoryInputs(r, s, Item(1, KindOf(s), Some(m.id), MemoryLine(KindOf(s), m), false, false));
    }
  }

  lemma LineIsActive(s: Section, cost: nat, activeOnly: bool)
    requires s in LENDERS && (s != Evidence ==> cost >= 3)
    ensures s in Names(OverlongRequest(s, cost), activeOnly)
  {
    hide SectionInputs, OverlongRequest, ActiveNames, Overlong, Quiet;
    OverlongInputs(s, cost);
    Listed(s);
    ActiveAreListed(SECTION_NAMES, SectionInputs(OverlongRequest(s, cost)), activeOnly);
  }

  lemma ReservationsNonnegative(c: Compiler, r: Request, activeOnly: bool)
    requires Valid(c)
    ensures forall s :: s in Names(r, activeOnly) && s in Reservations(c, r, activeOnly) ==> Reservations(c, r, activeOnly)[s] >= 0
  {
    hide Names, Shares, HeadingTokens, WeightTotal;
    NamesFacts(r, activeOnly);
    var names := Names(r, activeOnly);
    if activeOnly {
      forall s | s in names && s in Reservations(c, r, true) ensures Reservations(c, r, true)[s] >= 0 {
        SharesAreRounded(names, Available(c.counter, c.tokenBudget, names), s);
      }
    }
  }

  lemma {:induction false} TotalNonnegativeAt(names: seq<Section>, m: map<Section, int>, name: Section)
    requires name in names && forall s :: s in names ==> s in m && m[s] >= 0
    ensures m[name] <= Total(names, m)
  {
    TotalNonnegative(names[1..], m);
    if names[0] != name {
      TotalNonnegativeAt(names[1..], m, name);
    }
  }

  lemma OverlongIsLone(c: Compiler, activeOnly: bool, s: Section, cost: nat)
    requires Valid(c) && c.counter == DefaultTokenCounter && s in LENDERS && (s != Evidence ==> cost >= 3)
    requires var r := OverlongRequest(s, cost);
      var b, available := Reservations(c, r, activeOnly), Available(c.counter, c.tokenBudget, Names(r, activeOnly));
      s in b && b[s] >= 2 && cost == available + b[s] - 2
    ensures var r := OverlongRequest(s, cost);
      var names := Names(r, activeOnly);
      LoneLine(names, SectionInputs(r), Reservations(c, r, activeOnly), Available(c.counter, c.tokenBudget, names), s)
  {
    hide Names, SectionInputs, Reservations, Total, HeadingTokens, DefaultTokenCounter, Quiet, OverlongRequest, Overlong;
    var r := OverlongRequest(s, cost);
    ReservationsFit(c, r, activeOnly);
    NamesFacts(r, activeOnly);
    OverlongInputs(s, cost);
    LineIsActive(s, cost, activeOnly);
    ReservationsNonnegative(c, r, activeOnly);
    TotalNonnegativeAt(Names(r, activeOnly), Reservations(c, r, activeOnly), s);
  }

  /** In every compiler whose reservation for evidence, or for the memories of a tier, is two tokens or more, a request
      with an empty query and one optional line overshoots the available tokens by exactly the slack of its section, if
      only the line's second part is as long as its fixed beginning. */
  lemma ReclaimBoundIsTight(c: Compiler, activeOnly: bool, s: Section, cost: nat)
    requires Valid(c) && c.counter == DefaultTokenCounter && s in LENDERS && (s != Evidence ==> cost >= 3)
    requires var r := OverlongRequest(s, cost);
      var b, available := Reservations(c, r, activeOnly), Available(c.counter, c.tokenBudget, Names(r, activeOnly));
      s in b && b[s] >= 2 && cost == available + b[s] - 2
    ensures var r := OverlongRequest(s, cost);
      var names, inputs, b := Names(r, activeOnly), SectionInputs(r), Reservations(c, r, activeOnly);
      && Covers(names, inputs, b) && s in inputs && TotalExcess(c.counter, names, inputs, b) == 0
      && Slack(c.counter, inputs, b, s) == b[s] - 1
      && TotalUsed(names, FinalPlan(c, r, activeOnly).fitted)
         == Available(c.counter, c.tokenBudget, names) + Slack(c.counter, inputs, b, s)
      && !OnlyRequiredOverflows(c, r, activeOnly)
  {
    hide Names, SectionInputs, Reservations, LendAll, Total, HeadingTokens, DefaultTokenCounter, LoneLine, OverlongRequest,
         TotalExcess, Slack, FitAll, Start;
    var r := OverlongRequest(s, cost);
    var names, inputs, b := Names(r, activeOnly), SectionInputs(r), Reservations(c, r, activeOnly);
    var available := Available(c.counter, c.tokenBudget, names);
    FinalPlanIs(c, r, activeOnly);
    OverlongIsLone(c, activeOnly, s, cost);
    LoneStart(names, inputs, b, available, s);
    LoneOvershoot(names, inputs, b, available, s);
  }
}
