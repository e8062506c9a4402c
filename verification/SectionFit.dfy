/** Packing one context section: items in order, the first that does not fit cut at a word
    boundary, required items always kept (core/context/compiler.py). */
module SectionFit {
  import opened Basics
  import opened TokenText

  datatype Kind = Query | AssetProfile | Procedural | Semantic | Episodic | Evolution | EvidenceItem

  datatype Item = Item(
    sequence: nat, kind: Kind, itemId: Option<string>, line: string, required: bool, truncated: bool)

  datatype Fit = Fit(kept: seq<Item>, dropped: seq<Item>, used: nat)

  function Cost(counter: string -> nat, items: seq<Item>): nat {
    if items == [] then 0 else Cost(counter, items[..|items| - 1]) + counter(items[|items| - 1].line)
  }

  /** Where one more item goes. */
  function FitStep(counter: string -> nat, fit: Fit, item: Item, budget: int): Fit {
    var tokens := counter(item.line);
    if item.required || fit.used + tokens <= budget then
      Fit(fit.kept + [item], fit.dropped, fit.used + tokens)
    else
      var (head, tail) := Split(counter, item.line, budget - fit.used);
      if budget <= fit.used || head == "" then fit.(dropped := fit.dropped + [item])
      else Fit(fit.kept + [item.(line := head, truncated := true)],
               fit.dropped + [item.(line := tail, truncated := true)],
               fit.used + counter(head))
  }

  function FitAll(counter: string -> nat, items: seq<Item>, budget: int): Fit {
    if items == [] then Fit([], [], 0)
    else FitStep(counter, FitAll(counter, items[..|items| - 1], budget), items[|items| - 1], budget)
  }

  method FitSection(counter: string -> nat, items: seq<Item>, budget: int)
    returns (kept: seq<Item>, dropped: seq<Item>)
    ensures kept == FitAll(counter, items, budget).kept
    ensures dropped == FitAll(counter, items, budget).dropped
  {
    hide Split;
    kept, dropped := [], [];
    var used: nat := 0;
    for i := 0 to |items|
      invariant Fit(kept, dropped, used) == FitAll(counter, items[..i], budget)
    {
      assert items[..i + 1][..i] == items[..i];
      var item := items[i];
      var tokens := counter(item.line);
      if item.required || used + tokens <= budget {
        kept := kept + [item];
        used := used + tokens;
        continue;
      }
      var remaining := Max(0, budget - used);
      if remaining != 0 {
        var keptText, droppedText := SplitToTokenBudget(counter, item.line, remaining);
        if keptText == "" {
          dropped := dropped + [item];
          continue;
        }
        kept := kept + [Item(item.sequence, item.kind, item.itemId, keptText, item.required, true)];
        dropped := dropped + [Item(item.sequence, item.kind, item.itemId, droppedText, item.required, true)];
        used := used + counter(keptText);
      } else {
        dropped := dropped + [item];
      }
    }
    assert items[..|items|] == items;
  }

  // ---- what the packing guarantees ----

  predicate IsRequired(item: Item) {
    item.required
  }

  ghost predicate RequiredFirst(items: seq<Item>) {
    forall i, j :: 0 <= i < j < |items| && items[j].required ==> items[i].required
  }

  lemma {:induction false} CostSplits(counter: string -> nat, a: seq<Item>, b: seq<Item>)
    ensures Cost(counter, a + b) == Cost(counter, a) + Cost(counter, b)
  {
    if b == [] {
      assert a + b == a;
    } else {
      CostSplits(counter, a, b[..|b| - 1]);
      assert (a + b)[..|a + b| - 1] == a + b[..|b| - 1];
    }
  }

  lemma CostOfOne(counter: string -> nat, item: Item)
    ensures Cost(counter, [item]) == counter(item.line)
  {
    assert [item][..0] == [];
  }

  /** The running total is the cost of what was kept. */
  lemma {:induction false} UsedIsCost(counter: string -> nat, items: seq<Item>, budget: int)
    ensures var fit := FitAll(counter, items, budget); fit.used == Cost(counter, fit.kept)
  {
    if items != [] {
      var fit := FitAll(counter, items[..|items| - 1], budget);
      var next := FitAll(counter, items, budget);
      UsedIsCost(counter, items[..|items| - 1], budget);
      if next.kept != fit.kept {
        var last := next.kept[|next.kept| - 1];
        assert next.kept[..|next.kept| - 1] == fit.kept;
      }
    }
  }

  lemma RequiredStep(counter: string -> nat, fit: Fit, item: Item, budget: int)
    ensures var next := FitStep(counter, fit, item, budget);
      && Filter(IsRequired, next.kept) == Filter(IsRequired, fit.kept) + Filter(IsRequired, [item])
      && Filter(IsRequired, next.dropped) == Filter(IsRequired, fit.dropped)
  {
    hide Split;
    var (head, tail) := Split(counter, item.line, budget - fit.used);
    FilterSplits(IsRequired, fit.kept, [item]);
    FilterSplits(IsRequired, fit.dropped, [item]);
    FilterSplits(IsRequired, fit.kept, [item.(line := head, truncated := true)]);
    FilterSplits(IsRequired, fit.dropped, [item.(line := tail, truncated := true)]);
  }

  /** Required items are kept whole, in order, and never truncated or dropped. */
  lemma {:induction false} RequiredItemsKept(counter: string -> nat, items: seq<Item>, budget: int)
    ensures var fit := FitAll(counter, items, budget);
      && Filter(IsRequired, fit.kept) == Filter(IsRequired, items)
      && Filter(IsRequired, fit.dropped) == []
  {
    if items != [] {
      var init, last := items[..|items| - 1], items[|items| - 1];
      RequiredItemsKept(counter, init, budget);
      assert items == init + [last];
      FilterSplits(IsRequired, init, [last]);
      RequiredStep(counter, FitAll(counter, init, budget), last, budget);
    }
  }

  ghost function RequiredCost(counter: string -> nat, items: seq<Item>): nat {
    Cost(counter, Filter(IsRequired, items))
  }

  lemma OptionalStep(counter: string -> nat, fit: Fit, item: Item, budget: int)
    requires PrefixMonotone(counter) && !item.required
    ensures fit.used <= FitStep(counter, fit, item, budget).used <= Max(budget, fit.used)
  {
    hide Split, PrefixMonotone;
    SplitHeadFits(counter, item.line, budget - fit.used);
    var (head, tail) := Split(counter, item.line, budget - fit.used);
    var next := FitStep(counter, fit, item, budget);
    assert next.used == fit.used || next.used == fit.used + counter(item.line) || next.used == fit.used + counter(head);
  }

  lemma {:induction false} AllRequired(counter: string -> nat, items: seq<Item>, budget: int)
    requires forall i :: 0 <= i < |items| ==> items[i].required
    ensures FitAll(counter, items, budget) == Fit(items, [], Cost(counter, items))
    ensures Filter(IsRequired, items) == items
  {
    hide Split, Filter;
    FilterAll(IsRequired, items);
    if items != [] {
      AllRequired(counter, items[..|items| - 1], budget);
      assert items == items[..|items| - 1] + [items[|items| - 1]];
    }
  }

  /** A section exceeds its budget only by what its required items cost. */
  lemma {:induction false} FitWithinBudget(counter: string -> nat, items: seq<Item>, budget: int)
    requires PrefixMonotone(counter) && RequiredFirst(items)
    ensures var fit := FitAll(counter, items, budget);
      RequiredCost(counter, items) <= fit.used <= Max(budget, RequiredCost(counter, items))
  {
    hide Split, PrefixMonotone;
    if items != [] {
      var init, last := items[..|items| - 1], items[|items| - 1];
      FitWithinBudget(counter, init, budget);
      if last.required {
        AllRequired(counter, items, budget);
      } else {
        assert items == init + [last];
        FilterSplits(IsRequired, init, [last]);
        assert Filter(IsRequired, [last]) == [];
        OptionalStep(counter, FitAll(counter, init, budget), last, budget);
        assert Filter(IsRequired, items) == Filter(IsRequired, init);
      }
    }
  }

  /** h and t are the kept and the dropped half of item, with nothing but white space lost between them. */
  ghost predicate HalvesOf(item: Item, h: Item, t: Item) {
    && h == item.(line := h.line, truncated := true)
    && t == item.(line := t.line, truncated := true)
    && exists gap: string :: AllSpace(gap) && item.line == h.line + gap + t.line
  }

  ghost predicate Accounted(item: Item, fit: Fit) {
    item in fit.kept || item in fit.dropped || exists h, t :: h in fit.kept && t in fit.dropped && HalvesOf(item, h, t)
  }

  lemma LastAccounted(counter: string -> nat, fit: Fit, item: Item, budget: int)
    ensures Accounted(item, FitStep(counter, fit, item, budget))
  {
    hide Split, AllSpace;
    var next := FitStep(counter, fit, item, budget);
    var gap := SplitKeepsText(counter, item.line, budget - fit.used);
    var (head, tail) := Split(counter, item.line, budget - fit.used);
    var h, t := item.(line := head, truncated := true), item.(line := tail, truncated := true);
    assert HalvesOf(item, h, t);
    assert next.kept == fit.kept + [item] || next.dropped == fit.dropped + [item]
        || (next.kept == fit.kept + [h] && next.dropped == fit.dropped + [t]);
  }

  /** Nothing disappears without a trace: every input is kept, dropped, or split between the two. */
  lemma {:induction false} EveryItemAccounted(counter: string -> nat, items: seq<Item>, budget: int)
    ensures forall i :: 0 <= i < |items| ==> Accounted(items[i], FitAll(counter, items, budget))
  {
    if items != [] {
      var init, last := items[..|items| - 1], items[|items| - 1];
      var fit := FitAll(counter, init, budget);
      var next := FitAll(counter, items, budget);
      EveryItemAccounted(counter, init, budget);
      forall i | 0 <= i < |items| ensures Accounted(items[i], next) {
        if i < |init| {
          assert Accounted(init[i], fit);
          assert fit.kept <= next.kept && fit.dropped <= next.dropped;
          if !(init[i] in fit.kept || init[i] in fit.dropped) {
            var h, t :| h in fit.kept && t in fit.dropped && HalvesOf(init[i], h, t);
            assert h in next.kept && t in next.dropped;
          }
        } else {
          LastAccounted(counter, fit, last, budget);
        }
      }
    }
  }

  /** Everything in a fit came from the input: identities are never invented. */
  lemma {:induction false} FitInvents(counter: string -> nat, items: seq<Item>, budget: int)
    ensures var fit := FitAll(counter, items, budget);
      forall x :: x in fit.kept || x in fit.dropped ==>
        exists i :: 0 <= i < |items| && items[i].(line := x.line, truncated := x.truncated) == x
  {
    if items != [] {
      var init, last := items[..|items| - 1], items[|items| - 1];
      var fit := FitAll(counter, init, budget);
      var next := FitAll(counter, items, budget);
      FitInvents(counter, init, budget);
      forall x | x in next.kept || x in next.dropped
        ensures exists i :: 0 <= i < |items| && items[i].(line := x.line, truncated := x.truncated) == x
      {
        if x in fit.kept || x in fit.dropped {
          var i :| 0 <= i < |init| && init[i].(line := x.line, truncated := x.truncated) == x;
          assert items[i] == init[i];
        } else {
          assert last.(line := x.line, truncated := x.truncated) == x;
        }
      }
    }
  }

  /** What fits altogether is kept altogether. */
  lemma {:induction false} AllIfItFits(counter: string -> nat, items: seq<Item>, budget: int)
    requires Cost(counter, items) <= budget
    ensures FitAll(counter, items, budget) == Fit(items, [], Cost(counter, items))
  {
    if items != [] {
      AllIfItFits(counter, items[..|items| - 1], budget);
      assert items == items[..|items| - 1] + [items[|items| - 1]];
    }
  }

  /** Packing is in order: the longest run of first items that fits is kept, before anything else. */
  lemma {:induction false} FirstItemsKept(counter: string -> nat, items: seq<Item>, budget: int, k: nat)
    requires k <= |items| && Cost(counter, items[..k]) <= budget
    ensures items[..k] <= FitAll(counter, items, budget).kept
  {
    if k == |items| {
      assert items[..k] == items;
      AllIfItFits(counter, items, budget);
    } else {
      var init := items[..|items| - 1];
      assert init[..k] == items[..k];
      FirstItemsKept(counter, init, budget, k);
    }
  }

  lemma StepKeeps(counter: string -> nat, fit: Fit, item: Item, budget: int, x: Item)
    ensures var next := FitStep(counter, fit, item, budget);
      && next.used >= fit.used && (x in fit.kept ==> x in next.kept)
      && (x == item && !item.required && x !in next.kept ==> fit.used + counter(x.line) > budget)
  {
    hide Split;
    var head: string := Split(counter, item.line, budget - fit.used).0;
    assert counter(head) >= 0;
  }

  /** Nothing is left out that there was room for: an optional item that is not kept whole exceeds what is left. */
  lemma {:induction false} NothingMoreFits(counter: string -> nat, items: seq<Item>, budget: int, x: Item)
    requires x in items && !x.required && x !in FitAll(counter, items, budget).kept
    ensures FitAll(counter, items, budget).used + counter(x.line) > budget
  {
    hide Split;
    var init, last := items[..|items| - 1], items[|items| - 1];
    var fit, next := FitAll(counter, init, budget), FitAll(counter, items, budget);
    StepKeeps(counter, fit, last, budget, x);
    if x in init {
      NothingMoreFits(counter, init, budget, x);
    }
  }
}
