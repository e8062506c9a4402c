/** Requests that fit as a whole: when lending keeps everything, and when it still drops evidence
    (core/context/compiler.py). */
module RoomForAll {
  import opened Basics
  import opened Sorting
  import opened TokenText
  import opened Apportionment
  import opened SectionFit
  import opened Reclaim
  import opened ContextCompiler
  import opened ContextGuarantees
  import opened ContextOverflow
  import opened ContextLimits

  // ---- one section ----

  ghost predicate AllAreRequired(items: seq<Item>) {
    forall x :: x in items ==> x.required
  }

  lemma StepCostsAtMost(counter: string -> nat, fit: Fit, item: Item, budget: int)
    requires PrefixMonotone(counter)
    ensures FitStep(counter, fit, item, budget).used <= fit.used + counter(item.line)
    ensures FitStep(counter, fit, item, budget).dropped == [] ==>
      fit.dropped == [] && FitStep(counter, fit, item, budget).used == fit.used + counter(item.line)
  {
    hide Split, PrefixMonotone;
    SplitHeadFits(counter, item.line, budget - fit.used);
    var head: string := Split(counter, item.line, budget - fit.used).0;
    assert counter(head) >= 0;
  }

  lemma {:induction false} CostsAtMost(counter: string -> nat, items: seq<Item>, budget: int)
    requires PrefixMonotone(counter)
    ensures FitAll(counter, items, budget).used <= Cost(counter, items)
    ensures FitAll(counter, items, budget).dropped == [] ==> FitAll(counter, items, budget).used == Cost(counter, items)
  {
    hide FitStep, PrefixMonotone;
    if items != [] {
      var init, last := items[..|items| - 1], items[|items| - 1];
      CostsAtMost(counter, init, budget);
      StepCostsAtMost(counter, FitAll(counter, init, budget), last, budget);
    }
  }

  lemma OptionalIsLast(items: seq<Item>)
    requires RequiredFirst(items) && !AllAreRequired(items)
    ensures items != [] && !items[|items| - 1].required
  {
  }

  /** Where required items fill a section beyond its budget, an optional item is dropped, whatever its size. */
  lemma OverfullDrops(counter: string -> nat, items: seq<Item>, budget: int)
    requires PrefixMonotone(counter) && RequiredFirst(items) && !AllAreRequired(items) && RequiredCost(counter, items) > budget
    ensures FitAll(counter, items, budget).dropped != []
  {
    hide PrefixMonotone, Split, Cost;
    OptionalIsLast(items);
    var init, last := items[..|items| - 1], items[|items| - 1];
    assert items == init + [last];
    FilterSplits(IsRequired, init, [last]);
    assert Filter(IsRequired, [last]) == [];
    assert Filter(IsRequired, items) == Filter(IsRequired, init);
    FitWithinBudget(counter, init, budget);
  }

  /** A section drops nothing if and only if its budget covers all its items, or all of them are required. */
  lemma DropsNothingIff(counter: string -> nat, items: seq<Item>, budget: int)
    requires PrefixMonotone(counter) && RequiredFirst(items)
    ensures FitAll(counter, items, budget).dropped == [] <==> Cost(counter, items) <= budget || AllAreRequired(items)
  {
    hide FitAll, Cost, PrefixMonotone, RequiredFirst;
    if Cost(counter, items) <= budget {
      AllIfItFits(counter, items, budget);
    } else if AllAreRequired(items) {
      AllRequired(counter, items, budget);
    } else if RequiredCost(counter, items) > budget {
      OverfullDrops(counter, items, budget);
    } else {
      FitWithinBudget(counter, items, budget);
      CostsAtMost(counter, items, budget);
    }
  }

  // ---- lending when everything fits ----

  /** What a section that dropped something is still missing after the first pass. */
  ghost function Missing(counter: string -> nat, items: seq<Item>, budget: int): int {
    var fit := FitAll(counter, items, budget);
    if fit.dropped == [] then 0 else Cost(counter, items) - fit.used
  }

  /** The section has been lent exactly what it was missing. */
  ghost predicate Served(counter: string -> nat, inputs: Inputs, budgets: map<Section, int>, plan: Plan, s: Section)
    requires Consistent(inputs, plan) && s in plan.fitted && s in budgets
  {
    && plan.budgets[s] == budgets[s] + Missing(counter, inputs[s], budgets[s])
    && plan.fitted[s] == FitAll(counter, inputs[s], plan.budgets[s])
  }

  ghost function TotalCost(counter: string -> nat, names: seq<Section>, inputs: Inputs): int
    requires forall s :: s in names ==> s in inputs
  {
    Total(names, map s | s in names :: Cost(counter, inputs[s]))
  }

  /** There is enough left to keep everything that is not kept yet. */
  ghost predicate Enough(counter: string -> nat, names: seq<Section>, inputs: Inputs, plan: Plan)
    requires Consistent(inputs, plan) && forall s :: s in names ==> s in plan.fitted
  {
    && TotalCost(counter, names, inputs) <= TotalUsed(names, plan.fitted) + plan.reclaimable
    && forall s :: s in names ==> plan.fitted[s].used <= Cost(counter, inputs[s])
  }

  lemma {:induction false} TotalDifference(names: seq<Section>, a: map<Section, int>, b: map<Section, int>, d: map<Section, int>)
    requires forall t :: t in names ==> t in a && t in b && t in d && d[t] == b[t] - a[t]
    ensures Total(names, d) == Total(names, b) - Total(names, a)
  {
    if names != [] {
      TotalDifference(names[1..], a, b, d);
    }
  }

  lemma TotalDiffers(names: seq<Section>, a: map<Section, int>, b: map<Section, int>, s: Section)
    requires s in names && forall t :: t in names ==> t in a && t in b && a[t] <= b[t]
    ensures b[s] - a[s] <= Total(names, b) - Total(names, a)
  {
    var d := map t | t in names :: b[t] - a[t];
    TotalNonnegativeAt(names, d, s);
    TotalDifference(names, a, b, d);
  }

  /** With what it was missing a section keeps no less than before. */
  lemma LoanAddsItems(counter: string -> nat, items: seq<Item>, budget: int)
    requires PrefixMonotone(counter) && RequiredFirst(items)
    ensures FitAll(counter, items, budget).used <= FitAll(counter, items, budget + Missing(counter, items, budget)).used
  {
    hide FitAll, Cost, PrefixMonotone, RequiredFirst;
    var more := budget + Missing(counter, items, budget);
    CostsAtMost(counter, items, budget);
    FitWithinBudget(counter, items, budget);
    FitWithinBudget(counter, items, more);
    if Cost(counter, items) <= more {
      AllIfItFits(counter, items, more);
    }
  }

  lemma StillEnough(counter: string -> nat, names: seq<Section>, inputs: Inputs, plan: Plan, next: Plan, s: Section)
    requires Distinct(names) && Consistent(inputs, plan) && Consistent(inputs, next) && s in names
    requires plan.fitted.Keys == (set t | t in names) && Enough(counter, names, inputs, plan)
    requires s in next.fitted && next.fitted == plan.fitted[s := next.fitted[s]]
    requires plan.fitted[s].used <= next.fitted[s].used <= Cost(counter, inputs[s])
    requires next.reclaimable == Max(0, plan.reclaimable - Max(0, next.fitted[s].used - plan.fitted[s].used))
    ensures Enough(counter, names, inputs, next)
  {
    hide Cost, Total, Distinct;
    TotalOfUpdate(names, map t | t in names :: plan.fitted[t].used, map t | t in names :: next.fitted[t].used, s);
  }

  lemma EnoughForOne(counter: string -> nat, names: seq<Section>, inputs: Inputs, plan: Plan, s: Section)
    requires Consistent(inputs, plan) && (forall t :: t in names ==> t in plan.fitted) && Enough(counter, names, inputs, plan) && s in names
    ensures Cost(counter, inputs[s]) - plan.fitted[s].used <= plan.reclaimable
  {
    hide Cost, Total;
    TotalDiffers(names, map t | t in names :: plan.fitted[t].used, map t | t in names :: Cost(counter, inputs[t]), s);
  }

  /** A loan that is not limited by what is left. */
  lemma LoanIs(counter: string -> nat, inputs: Inputs, budgets: map<Section, int>, plan: Plan, s: Section)
    requires Consistent(inputs, plan) && s in plan.fitted && s in budgets
    requires plan.budgets[s] == budgets[s] && plan.fitted[s] == FitAll(counter, inputs[s], budgets[s])
    requires plan.fitted[s].used <= Cost(counter, inputs[s]) <= plan.fitted[s].used + plan.reclaimable
    ensures var next, missing := Lend(counter, inputs, plan, s), Missing(counter, inputs[s], budgets[s]);
      if missing == 0 then next == plan
      else
        && next.budgets == plan.budgets[s := budgets[s] + missing]
        && next.fitted == plan.fitted[s := FitAll(counter, inputs[s], budgets[s] + missing)]
        && next.reclaimable == Max(0, plan.reclaimable - Max(0, next.fitted[s].used - plan.fitted[s].used))
  {
    hide FitAll, Cost;
    UsedIsCost(counter, inputs[s], budgets[s]);
    UsedIsCost(counter, inputs[s], budgets[s] + Missing(counter, inputs[s], budgets[s]));
  }

  /** One loan serves its section and leaves enough for the others. */
  lemma LoanServes(counter: string -> nat, names: seq<Section>, inputs: Inputs, budgets: map<Section, int>, plan: Plan, s: Section)
    requires PrefixMonotone(counter) && Distinct(names) && Consistent(inputs, plan)
    requires plan.fitted.Keys == (set t | t in names) && Enough(counter, names, inputs, plan) && s in names && s in budgets
    requires plan.budgets[s] == budgets[s] && plan.fitted[s] == FitAll(counter, inputs[s], budgets[s]) && RequiredFirst(inputs[s])
    ensures Served(counter, inputs, budgets, Lend(counter, inputs, plan, s), s)
    ensures Enough(counter, names, inputs, Lend(counter, inputs, plan, s))
  {
    hide FitAll, Cost, PrefixMonotone, Total, Lend, Distinct;
    var next, missing := Lend(counter, inputs, plan, s), Missing(counter, inputs[s], budgets[s]);
    CostsAtMost(counter, inputs[s], budgets[s]);
    EnoughForOne(counter, names, inputs, plan, s);
    LoanIs(counter, inputs, budgets, plan, s);
    if missing > 0 {
      CostsAtMost(counter, inputs[s], next.budgets[s]);
      LoanAddsItems(counter, inputs[s], budgets[s]);
      StillEnough(counter, names, inputs, plan, next, s);
    }
  }

  lemma OthersStay(counter: string -> nat, inputs: Inputs, plan: Plan, s: Section)
    requires Consistent(inputs, plan)
    ensures var next := Lend(counter, inputs, plan, s);
      forall t :: t != s && t in plan.fitted ==> t in next.fitted && next.fitted[t] == plan.fitted[t] && next.budgets[t] == plan.budgets[t]
    ensures s !in plan.fitted ==> Lend(counter, inputs, plan, s) == plan
  {
    hide FitAll, Cost;
  }

  lemma StillServed(counter: string -> nat, inputs: Inputs, budgets: map<Section, int>, plan: Plan, next: Plan, s: Section)
    requires Consistent(inputs, plan) && Consistent(inputs, next) && s in plan.fitted && s in budgets && s in next.fitted
    requires Served(counter, inputs, budgets, plan, s) && next.fitted[s] == plan.fitted[s] && next.budgets[s] == plan.budgets[s]
    ensures Served(counter, inputs, budgets, next, s)
  {
    hide FitAll, Cost;
  }

  lemma {:induction false} AllServed(counter: string -> nat, names: seq<Section>, inputs: Inputs, budgets: map<Section, int>,
                                     plan: Plan, order: seq<Section>)
    requires PrefixMonotone(counter) && Distinct(names) && Distinct(order) && Consistent(inputs, plan)
    requires plan.fitted.Keys == (set t | t in names) && Covers(names, inputs, budgets)
    requires Enough(counter, names, inputs, plan) && Untouched(counter, inputs, budgets, plan, order)
    requires forall s :: s in names ==> RequiredFirst(inputs[s])
    requires forall s :: s in names && s !in order ==> Served(counter, inputs, budgets, plan, s)
    ensures forall s :: s in names ==> Served(counter, inputs, budgets, LendAll(counter, inputs, plan, order), s)
    decreases |order|
  {
    hide FitAll, Cost, PrefixMonotone, Lend, Enough, Served, Untouched, Distinct, RequiredFirst;
    if order != [] {
      var s, next := order[0], Lend(counter, inputs, plan, order[0]);
      UntouchedRest(counter, inputs, budgets, plan, order);
      OthersStay(counter, inputs, plan, s);
      if s in names {
        UntouchedAt(counter, inputs, budgets, plan, s);
        LoanServes(counter, names, inputs, budgets, plan, s);
      }
      forall t | t in names && t !in order[1..] ensures Served(counter, inputs, budgets, next, t) {
        if t != s {
          StillServed(counter, inputs, budgets, plan, next, t);
        }
      }
      AllServed(counter, names, inputs, budgets, next, order[1..]);
    }
  }

  lemma StartHasEnough(counter: string -> nat, names: seq<Section>, inputs: Inputs, budgets: map<Section, int>, available: nat)
    requires PrefixMonotone(counter) && Covers(names, inputs, budgets) && TotalCost(counter, names, inputs) <= available
    ensures Enough(counter, names, inputs, Start(counter, names, inputs, budgets, available))
    ensures Untouched(counter, inputs, budgets, Start(counter, names, inputs, budgets, available), RECLAIM_ORDER)
  {
    hide FitAll, Cost, PrefixMonotone, Total;
    forall s | s in names ensures FitAll(counter, inputs[s], budgets[s]).used <= Cost(counter, inputs[s]) {
      CostsAtMost(counter, inputs[s], budgets[s]);
    }
  }

  lemma OrderIsComplete(s: Section)
    ensures s in RECLAIM_ORDER && Distinct(RECLAIM_ORDER)
  {
    assert RECLAIM_ORDER[0] == Evidence && RECLAIM_ORDER[1] == KeyResults && RECLAIM_ORDER[2] == Learnings && RECLAIM_ORDER[3] == Workflow;
    assert RECLAIM_ORDER[4] == Assets && RECLAIM_ORDER[5] == CurrentState && RECLAIM_ORDER[6] == Errors && RECLAIM_ORDER[7] == TaskSpec;
  }

  /** If all items fit into the available tokens, every section is lent what the first pass left out. */
  lemma EverySectionServed(counter: string -> nat, names: seq<Section>, inputs: Inputs, budgets: map<Section, int>, available: nat)
    requires PrefixMonotone(counter) && Distinct(names) && Covers(names, inputs, budgets)
    requires TotalCost(counter, names, inputs) <= available && forall s :: s in names ==> RequiredFirst(inputs[s])
    ensures var last := LendAll(counter, inputs, Start(counter, names, inputs, budgets, available), RECLAIM_ORDER);
      forall s :: s in names ==> s in last.fitted && Served(counter, inputs, budgets, last, s)
  {
    hide FitAll, Cost, PrefixMonotone, Enough, Untouched, Distinct, Total, LendAll, Served, RequiredFirst;
    StartHasEnough(counter, names, inputs, budgets, available);
    OrderIsComplete(Evidence);
    forall s: Section ensures s in RECLAIM_ORDER {
      OrderIsComplete(s);
    }
    AllServed(counter, names, inputs, budgets, Start(counter, names, inputs, budgets, available), RECLAIM_ORDER);
  }

  /** It then drops nothing if and only if all its items are required, or its required items fit its reservation. */
  lemma ServedDropsNothingIff(counter: string -> nat, items: seq<Item>, budget: int)
    requires PrefixMonotone(counter) && RequiredFirst(items)
    ensures FitAll(counter, items, budget + Missing(counter, items, budget)).dropped == []
            <==> AllAreRequired(items) || RequiredCost(counter, items) <= budget
  {
    hide FitAll, Cost, PrefixMonotone, RequiredFirst, AllAreRequired;
    DropsNothingIff(counter, items, budget);
    DropsNothingIff(counter, items, budget + Missing(counter, items, budget));
    FitWithinBudget(counter, items, budget);
    CostsAtMost(counter, items, budget);
  }

  // ---- who is lent to first ----

  /** Evidence first, the query's section last. */
  function Rank(s: Section): nat {
    match s
    case Evidence => 0
    case KeyResults => 1
    case Learnings => 2
    case Workflow => 3
    case Assets => 4
    case CurrentState => 5
    case Errors => 6
    case TaskSpec => 7
  }

  lemma RankIsPlace(s: Section)
    ensures Rank(s) < |RECLAIM_ORDER| && RECLAIM_ORDER[Rank(s)] == s
  {
  }

  lemma {:induction false} LaterStays(counter: string -> nat, inputs: Inputs, plan: Plan, order: seq<Section>, s: Section)
    requires Consistent(inputs, plan) && s in plan.fitted && s !in order
    ensures LendAll(counter, inputs, plan, order).budgets[s] == plan.budgets[s]
    decreases |order|
  {
    hide Lend;
    if order != [] {
      OthersStay(counter, inputs, plan, order[0]);
      LaterStays(counter, inputs, Lend(counter, inputs, plan, order[0]), order[1..], s);
    }
  }

  /** While something is left, a section that misses something is lent a token at least, and all that it misses if that
      much is left. */
  lemma LoanSizeIs(counter: string -> nat, inputs: Inputs, budgets: map<Section, int>, plan: Plan, s: Section)
    requires Consistent(inputs, plan) && s in plan.fitted && s in budgets
    requires plan.budgets[s] == budgets[s] && plan.fitted[s] == FitAll(counter, inputs[s], budgets[s])
    requires Missing(counter, inputs[s], budgets[s]) >= 0
    ensures Missing(counter, inputs[s], budgets[s]) == 0 ==> Lend(counter, inputs, plan, s) == plan
    ensures Lend(counter, inputs, plan, s).budgets[s]
         == budgets[s] + Min(Max(0, plan.reclaimable), Missing(counter, inputs[s], budgets[s]))
  {
    hide FitAll, Cost;
    UsedIsCost(counter, inputs[s], budgets[s]);
  }

  lemma MissingIsNatural(counter: string -> nat, items: seq<Item>, budget: int)
    requires PrefixMonotone(counter)
    ensures Missing(counter, items, budget) >= 0
  {
    hide FitAll, Cost, PrefixMonotone;
    CostsAtMost(counter, items, budget);
  }

  lemma LendAllFirst(counter: string -> nat, inputs: Inputs, plan: Plan, order: seq<Section>)
    requires Consistent(inputs, plan) && order != []
    ensures LendAll(counter, inputs, plan, order) == LendAll(counter, inputs, Lend(counter, inputs, plan, order[0]), order[1..])
  {
    hide Lend;
  }

  lemma FirstStays(counter: string -> nat, inputs: Inputs, plan: Plan, order: seq<Section>, s: Section)
    requires Consistent(inputs, plan) && s in plan.fitted && order != [] && Distinct(order) && s == order[0]
    ensures LendAll(counter, inputs, plan, order).budgets[s] == Lend(counter, inputs, plan, s).budgets[s]
  {
    hide Lend, LendAll;
    assert LendAll(counter, inputs, plan, order) == LendAll(counter, inputs, Lend(counter, inputs, plan, s), order[1..]) by {
      LendAllFirst(counter, inputs, plan, order);
    }
    LaterStays(counter, inputs, Lend(counter, inputs, plan, s), order[1..], s);
  }

  /** Whoever comes later in the order is lent something only after whoever comes earlier and misses something. */
  lemma {:induction false} EarlierIsLent(counter: string -> nat, inputs: Inputs, budgets: map<Section, int>, plan: Plan,
                                         order: seq<Section>, i: nat, j: nat)
    requires PrefixMonotone(counter) && Consistent(inputs, plan) && Distinct(order) && i < j < |order|
    requires Untouched(counter, inputs, budgets, plan, order) && order[i] in plan.fitted && order[j] in plan.fitted
    requires order[i] in inputs && order[i] in budgets && Missing(counter, inputs[order[i]], budgets[order[i]]) > 0
    requires LendAll(counter, inputs, plan, order).budgets[order[j]] != plan.budgets[order[j]]
    ensures LendAll(counter, inputs, plan, order).budgets[order[i]] > plan.budgets[order[i]]
    decreases |order|
  {
    hide FitAll, Cost, PrefixMonotone, Lend, LendAll, Untouched, Missing;
    var s, next := order[0], Lend(counter, inputs, plan, order[0]);
    LendAllFirst(counter, inputs, plan, order);
    OthersStay(counter, inputs, plan, s);
    UntouchedRest(counter, inputs, budgets, plan, order);
    if i == 0 {
      UntouchedAt(counter, inputs, budgets, plan, s);
      LoanSizeIs(counter, inputs, budgets, plan, s);
      FirstStays(counter, inputs, plan, order, s);
      if plan.reclaimable <= 0 {
        Exhausted(counter, inputs, plan, order);
      }
    } else {
      assert order[1..][i - 1] == order[i] && order[1..][j - 1] == order[j];
      EarlierIsLent(counter, inputs, budgets, next, order[1..], i - 1, j - 1);
    }
  }

  /** The first in the order to miss something is lent all of it, or all that is left. */
  lemma {:induction false} FirstIsLent(counter: string -> nat, inputs: Inputs, budgets: map<Section, int>, plan: Plan,
                                       order: seq<Section>, i: nat)
    requires PrefixMonotone(counter) && Consistent(inputs, plan) && Distinct(order) && i < |order|
    requires Untouched(counter, inputs, budgets, plan, order) && order[i] in plan.fitted
    requires forall k :: 0 <= k < i && order[k] in plan.fitted ==>
      order[k] in inputs && order[k] in budgets && Missing(counter, inputs[order[k]], budgets[order[k]]) == 0
    ensures order[i] in inputs && order[i] in budgets
    ensures LendAll(counter, inputs, plan, order).budgets[order[i]]
         == budgets[order[i]] + Min(Max(0, plan.reclaimable), Missing(counter, inputs[order[i]], budgets[order[i]]))
    decreases |order|
  {
    hide FitAll, Cost, PrefixMonotone, Lend, LendAll, Untouched, Missing;
    var s := order[0];
    LendAllFirst(counter, inputs, plan, order);
    UntouchedRest(counter, inputs, budgets, plan, order);
    OthersStay(counter, inputs, plan, s);
    if s in plan.fitted {
      UntouchedAt(counter, inputs, budgets, plan, s);
      MissingIsNatural(counter, inputs[s], budgets[s]);
      LoanSizeIs(counter, inputs, budgets, plan, s);
    }
    if i == 0 {
      FirstStays(counter, inputs, plan, order, s);
    } else {
      assert order[1..][i - 1] == order[i];
      forall k | 0 <= k < i - 1 && order[1..][k] in plan.fitted
        ensures order[1..][k] in inputs && order[1..][k] in budgets
        ensures Missing(counter, inputs[order[1..][k]], budgets[order[1..][k]]) == 0
      {
        assert order[1..][k] == order[k + 1];
      }
      FirstIsLent(counter, inputs, budgets, plan, order[1..], i - 1);
    }
  }

  // ---- a whole request ----

  /** All sections together, headings included, would fit the token budget. */
  ghost predicate FitsAsWhole(c: Compiler, r: Request, activeOnly: bool) {
    var names := Names(r, activeOnly);
    && (forall s :: s in names ==> s in SectionInputs(r))
    && TotalCost(c.counter, names, SectionInputs(r)) <= Available(c.counter, c.tokenBudget, names)
  }

  ghost predicate OptionalEvidence(r: Request) {
    exists i :: 0 <= i < |r.evidence| && r.evidence[i].id !in r.required
  }

  lemma OptionalEvidenceIs(r: Request)
    ensures OptionalEvidence(r) <==> !AllAreRequired(BuildEvidence(r))
  {
    hide BuildEvidence;
    EvidenceItemsMatch(r, "");
    if i :| 0 <= i < |r.evidence| && r.evidence[i].id !in r.required {
      EvidenceItemsMatch(r, r.evidence[i].id);
      assert Supplied(r, r.evidence[i].id);
    }
    if x :| x in BuildEvidence(r) && !x.required {
      EvidenceItemsMatch(r, x.itemId.value);
      var i :| 0 <= i < |r.evidence| && r.evidence[i].id == x.itemId.value;
    }
  }

  /** Only the evidence section mixes required items with others. */
  lemma OthersDoNotMix(counter: string -> nat, r: Request, s: Section)
    requires s in SectionInputs(r) && s != Evidence
    ensures AllAreRequired(SectionInputs(r)[s]) || RequiredCost(counter, SectionInputs(r)[s]) == 0
  {
    hide BuildMemory, BuildEvidence, OfKind;
    forall kind ensures forall x :: x in OfKind(BuildMemory(r), kind) ==> !x.required {
      OfKindPlain(r, kind);
    }
    if s != TaskSpec && s != Errors {
      FilterNone(IsRequired, SectionInputs(r)[s]);
    }
  }

  ghost predicate DropsNothing(c: Compiler, r: Request, activeOnly: bool)
    requires Valid(c)
  {
    forall s :: s in Names(r, activeOnly) ==> FinalPlan(c, r, activeOnly).fitted[s].dropped == []
  }

  lemma FinalIsServed(c: Compiler, r: Request, activeOnly: bool, s: Section)
    requires Valid(c) && PrefixMonotone(c.counter) && FitsAsWhole(c, r, activeOnly) && s in Names(r, activeOnly)
    ensures s in SectionInputs(r) && s in Reservations(c, r, activeOnly)
    ensures Served(c.counter, SectionInputs(r), Reservations(c, r, activeOnly), FinalPlan(c, r, activeOnly), s)
  {
    hide FitAll, PrefixMonotone, TotalCost, LendAll, Start, Names, SectionInputs, Reservations, Valid, Served, HeadingTokens, Distinct, Available, RequiredFirst;
    InputsRequiredFirst(r);
    FinalPlanIs(c, r, activeOnly);
    NamesFacts(r, activeOnly);
    EverySectionServed(c.counter, Names(r, activeOnly), SectionInputs(r), Reservations(c, r, activeOnly),
                       Available(c.counter, c.tokenBudget, Names(r, activeOnly)));
  }

  lemma FinalDropsIff(c: Compiler, r: Request, activeOnly: bool, s: Section)
    requires Valid(c) && PrefixMonotone(c.counter) && FitsAsWhole(c, r, activeOnly) && s in Names(r, activeOnly)
    ensures s in SectionInputs(r) && s in Reservations(c, r, activeOnly)
    ensures FinalPlan(c, r, activeOnly).fitted[s].dropped == []
            <==> AllAreRequired(SectionInputs(r)[s]) || RequiredCost(c.counter, SectionInputs(r)[s]) <= Reservations(c, r, activeOnly)[s]
  {
    hide FitAll, PrefixMonotone, Names, SectionInputs, Reservations, Valid, AllAreRequired, RequiredCost, FitsAsWhole, RequiredFirst, FinalPlan, Missing;
    FinalIsServed(c, r, activeOnly, s);
    InputsRequiredFirst(r);
    ServedDropsNothingIff(c.counter, SectionInputs(r)[s], Reservations(c, r, activeOnly)[s]);
  }

  lemma EvidenceIsListed(r: Request)
    ensures Evidence in SectionInputs(r) && SectionInputs(r)[Evidence] == BuildEvidence(r)
  {
  }

  lemma NoEvidence(r: Request)
    ensures r.evidence == [] ==> !OptionalEvidence(r)
  {
  }

  /** Whether a request that fits as a whole is kept as a whole: it is, unless required evidence alone exceeds what is
      reserved for evidence; then the room left over goes unused and optional evidence is cut. */
  lemma NothingDroppedIff(c: Compiler, r: Request, activeOnly: bool)
    requires Valid(c) && PrefixMonotone(c.counter) && FitsAsWhole(c, r, activeOnly)
    ensures OptionalEvidence(r) ==> Evidence in Reservations(c, r, activeOnly)
    ensures DropsNothing(c, r, activeOnly)
            <==> (OptionalEvidence(r) ==> RequiredCost(c.counter, BuildEvidence(r)) <= Reservations(c, r, activeOnly)[Evidence])
  {
    hide FitAll, PrefixMonotone, Names, SectionInputs, Reservations, Valid, AllAreRequired, RequiredCost, FitsAsWhole, FinalPlan, BuildEvidence;
    hide OptionalEvidence;
    OptionalEvidenceIs(r);
    NamesFacts(r, activeOnly);
    EvidenceIsListed(r);
    ReservationsNonnegative(c, r, activeOnly);
    forall s | s in Names(r, activeOnly) && s != Evidence ensures FinalPlan(c, r, activeOnly).fitted[s].dropped == [] {
      FinalDropsIff(c, r, activeOnly, s);
      OthersDoNotMix(c.counter, r, s);
    }
    if Evidence in Names(r, activeOnly) {
      FinalDropsIff(c, r, activeOnly, Evidence);
    } else {
      NoEvidence(r);
    }
  }

  /** What a section reserves, and what it still misses after the first pass. */
  ghost function Wants(c: Compiler, r: Request, activeOnly: bool, s: Section): int
    requires s in SectionInputs(r) && s in Reservations(c, r, activeOnly)
  {
    Missing(c.counter, SectionInputs(r)[s], Reservations(c, r, activeOnly)[s])
  }

  /** Everything the first pass leaves of the available tokens. */
  ghost function Spare(c: Compiler, r: Request, activeOnly: bool): int
    requires Covers(Names(r, activeOnly), SectionInputs(r), Reservations(c, r, activeOnly))
  {
    var names := Names(r, activeOnly);
    Max(0, Available(c.counter, c.tokenBudget, names)
           - TotalUsed(names, FirstPass(c.counter, names, SectionInputs(r), Reservations(c, r, activeOnly))))
  }

  lemma StartIsUntouched(c: Compiler, r: Request, activeOnly: bool)
    requires Valid(c)
    ensures var names := Names(r, activeOnly);
      && Covers(names, SectionInputs(r), Reservations(c, r, activeOnly))
      && Untouched(c.counter, SectionInputs(r), Reservations(c, r, activeOnly),
                   Start(c.counter, names, SectionInputs(r), Reservations(c, r, activeOnly), Available(c.counter, c.tokenBudget, names)),
                   RECLAIM_ORDER)
    ensures Distinct(RECLAIM_ORDER)
  {
    hide FitAll, Names, SectionInputs, Reservations, TotalUsed, Valid, Available, Distinct, LendAll;
    FinalPlanIs(c, r, activeOnly);
    OrderIsComplete(Evidence);
  }

  /** Lending goes by rank: a section of lower rank is lent nothing before one that misses something. */
  lemma LentByRank(c: Compiler, r: Request, activeOnly: bool, s: Section, t: Section)
    requires Valid(c) && PrefixMonotone(c.counter) && s in Names(r, activeOnly) && t in Names(r, activeOnly) && Rank(s) < Rank(t)
    requires s in SectionInputs(r) && s in Reservations(c, r, activeOnly) && Wants(c, r, activeOnly, s) > 0
    requires t in Reservations(c, r, activeOnly) && FinalPlan(c, r, activeOnly).budgets[t] != Reservations(c, r, activeOnly)[t]
    ensures FinalPlan(c, r, activeOnly).budgets[s] > Reservations(c, r, activeOnly)[s]
  {
    hide FitAll, PrefixMonotone, Names, SectionInputs, Reservations, Valid, Missing, TotalUsed, Available, LendAll, Untouched, Distinct, Rank;
    var names := Names(r, activeOnly);
    StartIsUntouched(c, r, activeOnly);
    FinalPlanIs(c, r, activeOnly);
    RankIsPlace(s);
    RankIsPlace(t);
    EarlierIsLent(c.counter, SectionInputs(r), Reservations(c, r, activeOnly),
                  Start(c.counter, names, SectionInputs(r), Reservations(c, r, activeOnly), Available(c.counter, c.tokenBudget, names)),
                  RECLAIM_ORDER, Rank(s), Rank(t));
  }

  lemma PlaceIsRank(k: nat)
    requires k < |RECLAIM_ORDER|
    ensures Rank(RECLAIM_ORDER[k]) == k
  {
  }

  /** The section of the highest rank to miss something is lent all of it, or all that is spare. */
  lemma HighestRankIsLent(c: Compiler, r: Request, activeOnly: bool, s: Section)
    requires Valid(c) && PrefixMonotone(c.counter) && s in Names(r, activeOnly)
    requires Covers(Names(r, activeOnly), SectionInputs(r), Reservations(c, r, activeOnly))
    requires forall t :: t in Names(r, activeOnly) && Rank(t) < Rank(s) ==> Wants(c, r, activeOnly, t) == 0
    ensures FinalPlan(c, r, activeOnly).budgets[s]
         == Reservations(c, r, activeOnly)[s] + Min(Spare(c, r, activeOnly), Wants(c, r, activeOnly, s))
  {
    hide FitAll, PrefixMonotone, Names, SectionInputs, Reservations, Valid, Missing, TotalUsed, Available, LendAll, Untouched, Distinct, Rank;
    var names := Names(r, activeOnly);
    StartIsUntouched(c, r, activeOnly);
    FinalPlanIs(c, r, activeOnly);
    RankIsPlace(s);
    forall k: nat | k < Rank(s) && RECLAIM_ORDER[k] in names ensures Wants(c, r, activeOnly, RECLAIM_ORDER[k]) == 0 {
      PlaceIsRank(k);
    }
    FirstIsLent(c.counter, SectionInputs(r), Reservations(c, r, activeOnly),
                Start(c.counter, names, SectionInputs(r), Reservations(c, r, activeOnly), Available(c.counter, c.tokenBudget, names)),
                RECLAIM_ORDER, Rank(s));
  }

  // ---- a request that fits and is cut ----

  const NOTHING_RESERVED := Compiler(
    200, true, 1, 1, Structured,
    map[CurrentState := 0, TaskSpec := 0, Assets := 0, Workflow := 0, Errors := 0, Evidence := 0, Learnings := 0, KeyResults := 0],
    DefaultTokenCounter)

  const ROW_A := EvidenceRow("a", "s", "x")
  const ROW_B := EvidenceRow("b", "s", "x")

  const TWO_ROWS := Request("", map[], None, [ROW_A, ROW_B], ["a"])

  lemma TwoRowsSorted()
    ensures Sort(TWO_ROWS.evidence, (a, b) => EvidenceLe(TWO_ROWS.required, a, b)) == [ROW_A, ROW_B]
  {
    var le := (a, b) => EvidenceLe(TWO_ROWS.required, a, b);
    assert [ROW_A, ROW_B][1..] == [ROW_B] && [ROW_B][1..] == [];
    assert Sort([ROW_B], le) == [ROW_B];
    assert le(ROW_A, ROW_B);
  }

  lemma TwoItems()
    ensures BuildMemory(TWO_ROWS) == []
    ensures BuildEvidence(TWO_ROWS)
         == [Item(1, EvidenceItem, Some("a"), EvidenceLine(ROW_A), true, false), Item(2, EvidenceItem, Some("b"), EvidenceLine(ROW_B), false, false)]
  {
    hide EvidenceLe, EvidenceLine, Sort;
    NoMemories(TWO_ROWS, TIERS, 1);
    TwoRowsSorted();
    assert [ROW_A, ROW_B][1..] == [ROW_B] && [ROW_B][1..] == [];
    assert "a" in TWO_ROWS.required && "b" !in TWO_ROWS.required by { assert "b"[0] != "a"[0]; }
    assert BuildEvidence(TWO_ROWS) == EvidenceItems([ROW_A, ROW_B], TWO_ROWS.required, 1);
    assert EvidenceItems([ROW_B], TWO_ROWS.required, 2) == [Item(2, EvidenceItem, Some("b"), EvidenceLine(ROW_B), false, false)];
  }

  lemma ShortLine(row: EvidenceRow)
    requires row in {ROW_A, ROW_B}
    ensures 1 <= DefaultTokenCounter(EvidenceLine(row)) <= 8
  {
    hide DefaultTokenCounter;
    var t := EvidenceLine(row);
    NotBlank();
    assert t[0] == '[' && |t| == 8;
    VisibleCosts(t);
    CountOfPrefix(t, 0);
    CountOfEmpty();
    assert t[..0] == "";
  }

  lemma TwoItemsCost()
    ensures Cost(DefaultTokenCounter, BuildEvidence(TWO_ROWS)) <= 16
    ensures RequiredCost(DefaultTokenCounter, BuildEvidence(TWO_ROWS)) >= 1
  {
    hide DefaultTokenCounter, EvidenceLine, BuildEvidence;
    TwoItems();
    ShortLine(ROW_A);
    ShortLine(ROW_B);
    var items := BuildEvidence(TWO_ROWS);
    assert items == [items[0]] + [items[1]];
    CostSplits(DefaultTokenCounter, [items[0]], [items[1]]);
    CostOfOne(DefaultTokenCounter, items[0]);
    CostOfOne(DefaultTokenCounter, items[1]);
    FilterSplits(IsRequired, [items[0]], [items[1]]);
    assert Filter(IsRequired, items) == [items[0]];
  }

  lemma TwoRowsInputs()
    ensures forall s :: s in SECTION_NAMES ==> s in SectionInputs(TWO_ROWS)
    ensures forall s :: s in SECTION_NAMES && s != Evidence ==> Cost(DefaultTokenCounter, SectionInputs(TWO_ROWS)[s]) == 0
    ensures Cost(DefaultTokenCounter, SectionInputs(TWO_ROWS)[Evidence]) <= 16
  {
    hide DefaultTokenCounter, BuildEvidence, BuildMemory, SectionInputs, Cost;
    TwoItems();
    ContextOverflow.EvidenceInputs(TWO_ROWS);
    QuietQuery();
    EmptyLinesCostNothing([QueryItem("")]);
    EmptyLinesCostNothing([]);
    TwoItemsCost();
    Listed(Evidence);
  }

  lemma SectionsDistinct()
    ensures Distinct(SECTION_NAMES)
  {
  }

  lemma TwoRowsFit()
    ensures FitsAsWhole(NOTHING_RESERVED, TWO_ROWS, false)
  {
    hide DefaultTokenCounter, SectionInputs, Cost, HeadingTokens, Total, Names, Distinct;
    StructuredNames(TWO_ROWS);
    AllHeadings();
    TwoRowsInputs();
    Listed(Evidence);
    SectionsDistinct();
    TotalOfOne(SECTION_NAMES, map s | s in SECTION_NAMES :: Cost(DefaultTokenCounter, SectionInputs(TWO_ROWS)[s]), Evidence);
  }

  lemma NothingIsReserved()
    ensures Total(SECTION_NAMES, NOTHING_RESERVED.sectionBudgets) == 0
  {
    hide Total;
    TotalOfAll(NOTHING_RESERVED.sectionBudgets);
  }

  lemma NothingReservedIsValid()
    ensures Valid(NOTHING_RESERVED)
  {
    hide DefaultTokenCounter, HeadingTokens, Total;
    NothingIsReserved();
  }

  /** Nothing is reserved for evidence: 200 tokens are plenty for both rows, and the optional one is still cut. */
  lemma CutDespiteRoom()
    ensures Valid(NOTHING_RESERVED) && FitsAsWhole(NOTHING_RESERVED, TWO_ROWS, false)
    ensures !DropsNothing(NOTHING_RESERVED, TWO_ROWS, false)
  {
    hide DefaultTokenCounter, BuildEvidence, FitsAsWhole, Valid, DropsNothing, RequiredCost;
    TwoRowsFit();
    NothingReservedIsValid();
    TwoItemsCost();
    DefaultIsPrefixMonotone();
    NothingDroppedIff(NOTHING_RESERVED, TWO_ROWS, false);
    assert TWO_ROWS.evidence[1].id == "b" && "b" !in TWO_ROWS.required;
    assert Reservations(NOTHING_RESERVED, TWO_ROWS, false)[Evidence] == 0;
  }
}
