/** The two packing passes of the structured compiler: fit every section to its own budget,
    then lend what is left to the sections that dropped something (core/context/compiler.py). */
module Reclaim {
  import opened Basics
  import opened Sorting
  import opened TokenText
  import opened Apportionment
  import opened SectionFit

  type Inputs = map<Section, seq<Item>>

  const RECLAIM_ORDER: seq<Section> :=
    [Evidence, KeyResults, Learnings, Workflow, Assets, CurrentState, Errors, TaskSpec]

  datatype Plan = Plan(budgets: map<Section, int>, fitted: map<Section, Fit>, reclaimable: int)

  ghost predicate Covers(names: seq<Section>, inputs: Inputs, budgets: map<Section, int>) {
    forall s :: s in names ==> s in inputs && s in budgets
  }

  function FirstPass(counter: string -> nat, names: seq<Section>, inputs: Inputs, budgets: map<Section, int>): map<Section, Fit>
    requires Covers(names, inputs, budgets)
  {
    map s | s in names :: FitAll(counter, inputs[s], budgets[s])
  }

  /** Tokens kept over all the listed sections. */
  function TotalUsed(names: seq<Section>, fitted: map<Section, Fit>): int
    requires forall s :: s in names ==> s in fitted
  {
    Total(names, map s | s in names :: fitted[s].used)
  }

  function Start(counter: string -> nat, names: seq<Section>, inputs: Inputs, budgets: map<Section, int>, available: nat): Plan
    requires Covers(names, inputs, budgets)
  {
    var fitted := FirstPass(counter, names, inputs, budgets);
    Plan(budgets, fitted, Max(0, available - TotalUsed(names, fitted)))
  }

  ghost predicate Consistent(inputs: Inputs, plan: Plan) {
    forall s :: s in plan.fitted ==> s in inputs && s in plan.budgets
  }

  /** One turn of the lending loop. */
  function Lend(counter: string -> nat, inputs: Inputs, plan: Plan, name: Section): (next: Plan)
    requires Consistent(inputs, plan)
    ensures Consistent(inputs, next) && next.fitted.Keys == plan.fitted.Keys
  {
    if name !in plan.fitted || plan.reclaimable <= 0 || plan.fitted[name].dropped == [] then plan
    else
      var usedBefore := Cost(counter, plan.fitted[name].kept);
      var missing := Max(0, Cost(counter, inputs[name]) - usedBefore);
      if missing == 0 then plan
      else
        var budget := plan.budgets[name] + Min(plan.reclaimable, missing);
        var refit := FitAll(counter, inputs[name], budget);
        var growth := Max(0, Cost(counter, refit.kept) - usedBefore);
        Plan(plan.budgets[name := budget], plan.fitted[name := refit], Max(0, plan.reclaimable - growth))
  }

  function LendAll(counter: string -> nat, inputs: Inputs, plan: Plan, order: seq<Section>): (next: Plan)
    requires Consistent(inputs, plan)
    ensures Consistent(inputs, next) && next.fitted.Keys == plan.fitted.Keys
    decreases |order|
  {
    if order == [] then plan else LendAll(counter, inputs, Lend(counter, inputs, plan, order[0]), order[1..])
  }

  method FitEach(counter: string -> nat, names: seq<Section>, inputs: Inputs, budgets: map<Section, int>)
    returns (fitted: map<Section, Fit>)
    requires Covers(names, inputs, budgets)
    ensures fitted == FirstPass(counter, names, inputs, budgets)
  {
    hide FitAll, Cost;
    fitted := map[];
    for i := 0 to |names|
      invariant fitted == FirstPass(counter, names[..i], inputs, budgets)
    {
      var kept, dropped := FitSection(counter, inputs[names[i]], budgets[names[i]]);
      UsedIsCost(counter, inputs[names[i]], budgets[names[i]]);
      fitted := fitted[names[i] := Fit(kept, dropped, Cost(counter, kept))];
      assert names[..i + 1] == names[..i] + [names[i]];
    }
    assert names[..|names|] == names;
  }

  method LendTo(counter: string -> nat, inputs: Inputs, name: Section,
                budgets: map<Section, int>, fits: map<Section, Fit>, spare: int)
    returns (effective: map<Section, int>, fitted: map<Section, Fit>, reclaimable: int)
    requires Consistent(inputs, Plan(budgets, fits, spare))
    requires name in fits && spare > 0 && fits[name].dropped != []
    ensures Plan(effective, fitted, reclaimable) == Lend(counter, inputs, Plan(budgets, fits, spare), name)
  {
    hide FitAll, Cost;
    effective, fitted, reclaimable := budgets, fits, spare;
    var usedBefore: int := Cost(counter, fitted[name].kept);
    var missing := Max(0, Cost(counter, inputs[name]) - usedBefore);
    if missing == 0 {
      return;
    }
    effective := effective[name := effective[name] + Min(reclaimable, missing)];
    var kept, dropped := FitSection(counter, inputs[name], effective[name]);
    UsedIsCost(counter, inputs[name], effective[name]);
    var usedAfter: int := Cost(counter, kept);
    fitted := fitted[name := Fit(kept, dropped, Cost(counter, kept))];
    reclaimable := Max(0, reclaimable - Max(0, usedAfter - usedBefore));
  }

  lemma NobodyLeft(counter: string -> nat, inputs: Inputs, plan: Plan)
    requires Consistent(inputs, plan)
    ensures LendAll(counter, inputs, plan, RECLAIM_ORDER[|RECLAIM_ORDER|..]) == plan
  {
  }

  /** Once nothing is left to lend, the rest of the order changes nothing: leaving the loop early is safe. */
  lemma OneMoreLoan(counter: string -> nat, inputs: Inputs, plan: Plan, i: nat)
    requires Consistent(inputs, plan) && i < |RECLAIM_ORDER|
    ensures LendAll(counter, inputs, plan, RECLAIM_ORDER[i..])
         == LendAll(counter, inputs, Lend(counter, inputs, plan, RECLAIM_ORDER[i]), RECLAIM_ORDER[i + 1..])
  {
    hide Lend;
    var rest := RECLAIM_ORDER[i..];
    assert rest[0] == RECLAIM_ORDER[i] && rest[1..] == RECLAIM_ORDER[i + 1..];
  }

  lemma {:induction false} Exhausted(counter: string -> nat, inputs: Inputs, plan: Plan, order: seq<Section>)
    requires Consistent(inputs, plan) && plan.reclaimable <= 0
    ensures LendAll(counter, inputs, plan, order) == plan
    decreases |order|
  {
    if order != [] {
      Exhausted(counter, inputs, plan, order[1..]);
    }
  }

  method FitSections(counter: string -> nat, names: seq<Section>, inputs: Inputs, budgets: map<Section, int>, available: nat)
    returns (effective: map<Section, int>, fitted: map<Section, Fit>)
    requires Covers(names, inputs, budgets)
    ensures var plan := LendAll(counter, inputs, Start(counter, names, inputs, budgets, available), RECLAIM_ORDER);
      effective == plan.budgets && fitted == plan.fitted
  {
    hide FitAll, Cost, Total, LendAll;
    effective := budgets;
    fitted := FitEach(counter, names, inputs, budgets);
    var reclaimable := Max(0, available - TotalUsed(names, fitted));
    ghost var final := LendAll(counter, inputs, Plan(effective, fitted, reclaimable), RECLAIM_ORDER);
    assert RECLAIM_ORDER[0..] == RECLAIM_ORDER;
    for i := 0 to |RECLAIM_ORDER|
      invariant Consistent(inputs, Plan(effective, fitted, reclaimable))
      invariant LendAll(counter, inputs, Plan(effective, fitted, reclaimable), RECLAIM_ORDER[i..]) == final
    {
      var name := RECLAIM_ORDER[i];
      ghost var plan := Plan(effective, fitted, reclaimable);
      OneMoreLoan(counter, inputs, plan, i);
      if name !in fitted {
        continue;
      }
      if reclaimable <= 0 {
        Exhausted(counter, inputs, plan, RECLAIM_ORDER[i..]);
        return;
      }
      if fitted[name].dropped == [] {
        continue;
      }
      effective, fitted, reclaimable := LendTo(counter, inputs, name, effective, fitted, reclaimable);
    }
    NobodyLeft(counter, inputs, Plan(effective, fitted, reclaimable));
  }

  // ---- the reclaim bound ----

  lemma {:induction false} TotalOfUpdate(names: seq<Section>, m: map<Section, int>, n: map<Section, int>, name: Section)
    requires Distinct(names) && forall s :: s in names ==> s in m && s in n && (s != name ==> n[s] == m[s])
    ensures Total(names, n) == Total(names, m) + if name in names then n[name] - m[name] else 0
  {
    if names != [] {
      TotalOfUpdate(names[1..], m, n, name);
      assert names == [names[0]] + names[1..];
    }
  }

  /** Budget a section left unused in the first pass. */
  ghost function Slack(counter: string -> nat, inputs: Inputs, budgets: map<Section, int>, name: Section): int
    requires name in inputs && name in budgets
  {
    Max(0, budgets[name] - FitAll(counter, inputs[name], budgets[name]).used)
  }

  /** What a section's required items cost beyond its budget. */
  ghost function Excess(counter: string -> nat, inputs: Inputs, budgets: map<Section, int>, name: Section): int
    requires name in inputs && name in budgets
  {
    Max(0, RequiredCost(counter, inputs[name]) - budgets[name])
  }

  ghost function TotalExcess(counter: string -> nat, names: seq<Section>, inputs: Inputs, budgets: map<Section, int>): int
    requires Covers(names, inputs, budgets)
  {
    Total(names, map s | s in names :: Excess(counter, inputs, budgets, s))
  }

  /** The sections of rest have not been touched: they still hold their first-pass fit. */
  ghost predicate Untouched(counter: string -> nat, inputs: Inputs, budgets: map<Section, int>, plan: Plan, rest: seq<Section>)
    requires Consistent(inputs, plan)
  {
    forall s :: s in rest && s in plan.fitted ==>
      s in budgets && plan.budgets[s] == budgets[s] && plan.fitted[s] == FitAll(counter, inputs[s], budgets[s])
  }

  /** While something is left to lend, what is kept and what is left stay within the available tokens. */
  ghost predicate WithinReach(names: seq<Section>, plan: Plan, available: int)
    requires forall s :: s in names ==> s in plan.fitted
  {
    plan.reclaimable > 0 ==> TotalUsed(names, plan.fitted) + plan.reclaimable <= available
  }

  /** What one loan does: it touches one section, and grows it by no more than what was left to
      lend plus that section's own slack. */
  lemma LoanSize(counter: string -> nat, inputs: Inputs, budgets: map<Section, int>, plan: Plan, name: Section)
    requires PrefixMonotone(counter) && Consistent(inputs, plan)
    requires Untouched(counter, inputs, budgets, plan, [name])
    requires forall s :: s in inputs ==> RequiredFirst(inputs[s])
    ensures var next := Lend(counter, inputs, plan, name);
      next == plan
      || (&& name in plan.fitted && name in budgets && name in inputs && plan.reclaimable > 0
          && next.fitted == plan.fitted[name := next.fitted[name]]
          && next.budgets == plan.budgets[name := next.budgets[name]]
          && plan.budgets[name] < next.budgets[name] <= plan.budgets[name] + plan.reclaimable
          && next.fitted[name] == FitAll(counter, inputs[name], next.budgets[name])
          && var growth := next.fitted[name].used - plan.fitted[name].used;
             && next.reclaimable == Max(0, plan.reclaimable - Max(0, growth))
             && growth <= plan.reclaimable + Slack(counter, inputs, budgets, name))
  {
    hide FitAll, Cost, PrefixMonotone;
    var next := Lend(counter, inputs, plan, name);
    if next != plan {
      assert name in [name];
      UsedIsCost(counter, inputs[name], budgets[name]);
      UsedIsCost(counter, inputs[name], next.budgets[name]);
      FitWithinBudget(counter, inputs[name], budgets[name]);
      FitWithinBudget(counter, inputs[name], next.budgets[name]);
    }
  }

  /** One loan keeps the total within reach, or overshoots by at most the borrower's own slack
      and leaves nothing to lend. */
  lemma LendStep(counter: string -> nat, names: seq<Section>, inputs: Inputs, budgets: map<Section, int>,
                 plan: Plan, name: Section, available: int)
    requires PrefixMonotone(counter) && Distinct(names) && Consistent(inputs, plan)
    requires plan.fitted.Keys == (set s | s in names) && WithinReach(names, plan, available)
    requires Untouched(counter, inputs, budgets, plan, [name])
    requires forall s :: s in inputs ==> RequiredFirst(inputs[s])
    ensures var next := Lend(counter, inputs, plan, name);
      && WithinReach(names, next, available) && next.reclaimable <= plan.reclaimable
      && (next == plan
          || TotalUsed(names, next.fitted) <= available
          || (name in names && name in budgets && next.reclaimable == 0
              && next.fitted[name].used - plan.fitted[name].used > plan.reclaimable
              && TotalUsed(names, next.fitted) <= available + Slack(counter, inputs, budgets, name)))
  {
    hide FitAll, Cost, PrefixMonotone, Lend, Slack, RequiredFirst, Untouched;
    var next := Lend(counter, inputs, plan, name);
    LoanSize(counter, inputs, budgets, plan, name);
    if next != plan {
      TotalOfUpdate(names, map s | s in names :: plan.fitted[s].used, map s | s in names :: next.fitted[s].used, name);
    }
  }

  lemma UntouchedRest(counter: string -> nat, inputs: Inputs, budgets: map<Section, int>, plan: Plan, order: seq<Section>)
    requires Consistent(inputs, plan) && Distinct(order) && order != []
    requires Untouched(counter, inputs, budgets, plan, order)
    ensures Untouched(counter, inputs, budgets, Lend(counter, inputs, plan, order[0]), order[1..])
    ensures Untouched(counter, inputs, budgets, plan, [order[0]]) && Distinct(order[1..])
  {
    hide FitAll, Cost;
  }

  /** A section that dropped something borrowed last: its budget was raised, by less than what it then kept in addition,
      and the sections after it in the order still hold their first-pass fits. */
  ghost predicate BorrowedLast(counter: string -> nat, inputs: Inputs, budgets: map<Section, int>, last: Plan,
                               order: seq<Section>, borrower: Section)
    requires Consistent(inputs, last)
  {
    && borrower in inputs && borrower in budgets && borrower in last.budgets && borrower in last.fitted
    && last.fitted[borrower] == FitAll(counter, inputs[borrower], last.budgets[borrower])
    && last.fitted[borrower].used - FitAll(counter, inputs[borrower], budgets[borrower]).used > last.budgets[borrower] - budgets[borrower]
    && FitAll(counter, inputs[borrower], budgets[borrower]).dropped != []
    && last.budgets[borrower] > budgets[borrower] && last.reclaimable == 0
    && exists k :: 0 <= k < |order| && order[k] == borrower && Untouched(counter, inputs, budgets, last, order[k + 1..])
  }

  lemma UntouchedAt(counter: string -> nat, inputs: Inputs, budgets: map<Section, int>, plan: Plan, name: Section)
    requires Consistent(inputs, plan) && Untouched(counter, inputs, budgets, plan, [name]) && name in plan.fitted
    ensures name in budgets && plan.budgets[name] == budgets[name]
    ensures plan.fitted[name] == FitAll(counter, inputs[name], budgets[name])
  {
    hide FitAll;
    assert name in [name];
  }

  /** Only a section that dropped something borrows, and borrowing raises its budget by no more than what is left. */
  lemma BorrowersDropped(counter: string -> nat, inputs: Inputs, budgets: map<Section, int>, plan: Plan, order: seq<Section>)
    requires PrefixMonotone(counter) && forall s :: s in inputs ==> RequiredFirst(inputs[s])
    requires Consistent(inputs, plan) && order != [] && Distinct(order) && Untouched(counter, inputs, budgets, plan, order)
    requires var next := Lend(counter, inputs, plan, order[0]);
      && next != plan && next.reclaimable == 0
      && (order[0] in plan.fitted ==> next.fitted[order[0]].used - plan.fitted[order[0]].used > plan.reclaimable)
    ensures var next := Lend(counter, inputs, plan, order[0]);
      && BorrowedLast(counter, inputs, budgets, next, order, order[0])
      && next.budgets[order[0]] - budgets[order[0]] <= plan.reclaimable
  {
    hide FitAll, Cost, Untouched, PrefixMonotone, RequiredFirst;
    var next := Lend(counter, inputs, plan, order[0]);
    UntouchedRest(counter, inputs, budgets, plan, order);
    UntouchedAt(counter, inputs, budgets, plan, order[0]);
    LoanSize(counter, inputs, budgets, plan, order[0]);
    assert order[0 + 1..] == order[1..];
  }

  lemma LaterBorrowerIsLast(counter: string -> nat, inputs: Inputs, budgets: map<Section, int>, last: Plan,
                            order: seq<Section>, borrower: Section)
    requires Consistent(inputs, last) && order != []
    requires BorrowedLast(counter, inputs, budgets, last, order[1..], borrower)
    ensures BorrowedLast(counter, inputs, budgets, last, order, borrower)
  {
    hide FitAll, Untouched;
    var rest := order[1..];
    var k :| 0 <= k < |rest| && rest[k] == borrower && Untouched(counter, inputs, budgets, last, rest[k + 1..]);
    assert order[k + 1] == borrower && order[k + 1 + 1..] == rest[k + 1..];
  }

  lemma {:induction false} LendAllBound(counter: string -> nat, names: seq<Section>, inputs: Inputs, budgets: map<Section, int>,
                                        plan: Plan, order: seq<Section>, available: int, cap: int)
    returns (borrower: Section)
    requires PrefixMonotone(counter) && Distinct(names) && Distinct(order) && Consistent(inputs, plan)
    requires plan.fitted.Keys == (set s | s in names) && names != [] && Covers(names, inputs, budgets)
    requires WithinReach(names, plan, available) && Untouched(counter, inputs, budgets, plan, order)
    requires forall s :: s in inputs ==> RequiredFirst(inputs[s])
    requires TotalUsed(names, plan.fitted) <= cap && available <= cap
    ensures borrower in names
    ensures var last := LendAll(counter, inputs, plan, order);
      || TotalUsed(names, last.fitted) <= cap
      || (&& BorrowedLast(counter, inputs, budgets, last, order, borrower)
          && last.budgets[borrower] - budgets[borrower] <= plan.reclaimable
          && TotalUsed(names, last.fitted) <= available + Slack(counter, inputs, budgets, borrower))
    decreases |order|
  {
    hide FitAll, PrefixMonotone, RequiredFirst, Lend, Slack, Total, TotalUsed, Untouched, Distinct, WithinReach, Cost, BorrowedLast;
    borrower := names[0];
    if order != [] {
      var next := Lend(counter, inputs, plan, order[0]);
      UntouchedRest(counter, inputs, budgets, plan, order);
      LendStep(counter, names, inputs, budgets, plan, order[0], available);
      if TotalUsed(names, next.fitted) <= cap {
        borrower := LendAllBound(counter, names, inputs, budgets, next, order[1..], available, cap);
        var last := LendAll(counter, inputs, next, order[1..]);
        if TotalUsed(names, last.fitted) > cap {
          LaterBorrowerIsLast(counter, inputs, budgets, last, order, borrower);
        }
      } else {
        borrower := order[0];
        BorrowersDropped(counter, inputs, budgets, plan, order);
        Exhausted(counter, inputs, next, order[1..]);
      }
    }
  }

  lemma {:induction false} TotalAtMostPointwise(names: seq<Section>, m: map<Section, int>, a: map<Section, int>, b: map<Section, int>)
    requires forall s :: s in names ==> s in m && s in a && s in b && m[s] <= a[s] + b[s]
    ensures Total(names, m) <= Total(names, a) + Total(names, b)
  {
    if names != [] {
      TotalAtMostPointwise(names[1..], m, a, b);
    }
  }

  /** The first pass exceeds the sum of its budgets only by required items. */
  lemma FirstPassBound(counter: string -> nat, names: seq<Section>, inputs: Inputs, budgets: map<Section, int>)
    requires PrefixMonotone(counter) && Covers(names, inputs, budgets)
    requires forall s :: s in inputs ==> RequiredFirst(inputs[s])
    ensures TotalUsed(names, FirstPass(counter, names, inputs, budgets))
            <= Total(names, budgets) + TotalExcess(counter, names, inputs, budgets)
  {
    hide FitAll, PrefixMonotone, RequiredFirst, RequiredCost;
    forall s | s in names
      ensures FitAll(counter, inputs[s], budgets[s]).used <= budgets[s] + Excess(counter, inputs, budgets, s)
    {
      FitWithinBudget(counter, inputs[s], budgets[s]);
    }
    var fitted := FirstPass(counter, names, inputs, budgets);
    TotalAtMostPointwise(names, map s | s in names :: fitted[s].used, budgets,
                         map s | s in names :: Excess(counter, inputs, budgets, s));
  }

  lemma ExcessNonnegative(counter: string -> nat, names: seq<Section>, inputs: Inputs, budgets: map<Section, int>)
    requires Covers(names, inputs, budgets)
    ensures TotalExcess(counter, names, inputs, budgets) >= 0
  {
    TotalNonnegative(names, map s | s in names :: Excess(counter, inputs, budgets, s));
  }

  /** The reclaim bound: beyond the available tokens there is only what required items cost beyond their sections'
      budgets, or else the first-pass slack of one section: the one that borrowed last, which had dropped something. */
  lemma ReclaimBound(counter: string -> nat, names: seq<Section>, inputs: Inputs, budgets: map<Section, int>, available: nat)
    returns (borrower: Section)
    requires PrefixMonotone(counter) && Distinct(names) && names != [] && Covers(names, inputs, budgets)
    requires forall s :: s in inputs ==> RequiredFirst(inputs[s])
    requires Total(names, budgets) <= available
    ensures borrower in names
    ensures var last := LendAll(counter, inputs, Start(counter, names, inputs, budgets, available), RECLAIM_ORDER);
      || TotalUsed(names, last.fitted) <= available + TotalExcess(counter, names, inputs, budgets)
      || (&& BorrowedLast(counter, inputs, budgets, last, RECLAIM_ORDER, borrower)
          && last.budgets[borrower] - budgets[borrower] <= Start(counter, names, inputs, budgets, available).reclaimable
          && TotalUsed(names, last.fitted) <= available + Slack(counter, inputs, budgets, borrower))
  {
    hide FitAll, PrefixMonotone, RequiredFirst, Total, Slack, Excess, BorrowedLast;
    var start := Start(counter, names, inputs, budgets, available);
    FirstPassBound(counter, names, inputs, budgets);
    ExcessNonnegative(counter, names, inputs, budgets);
    borrower := LendAllBound(counter, names, inputs, budgets, start, RECLAIM_ORDER, available,
                             Max(available, TotalUsed(names, start.fitted)));
  }

  /** When no section that drops something in the first pass leaves budget unused, only required items can push the
      total over. */
  lemma NoSlackNoOvershoot(counter: string -> nat, names: seq<Section>, inputs: Inputs, budgets: map<Section, int>, available: nat)
    requires PrefixMonotone(counter) && Distinct(names) && names != [] && Covers(names, inputs, budgets)
    requires forall s :: s in inputs ==> RequiredFirst(inputs[s])
    requires Total(names, budgets) <= available
    requires forall s :: s in names ==>
      FitAll(counter, inputs[s], budgets[s]).dropped != [] ==> FitAll(counter, inputs[s], budgets[s]).used >= budgets[s]
    ensures var last := LendAll(counter, inputs, Start(counter, names, inputs, budgets, available), RECLAIM_ORDER);
      TotalUsed(names, last.fitted) <= available + TotalExcess(counter, names, inputs, budgets)
  {
    hide FitAll, PrefixMonotone, RequiredFirst, Total, Excess, LendAll;
    var borrower := ReclaimBound(counter, names, inputs, budgets, available);
    ExcessNonnegative(counter, names, inputs, budgets);
  }
}
