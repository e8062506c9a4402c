/** The flat strategy: line caps, then whole items dropped from the end until the text fits
    (core/context/compiler.py). */
module FlatContext {
  import opened Basics
  import opened Sorting
  import opened TokenText
  import opened SectionFit

  datatype DropReason = LineCap | TokenBudget | SectionBudget

  function Lines(items: seq<Item>): seq<string> {
    if items == [] then [] else [items[0].line] + Lines(items[1..])
  }

  /** The one-line form whose estimate is held against the budget. */
  function Measure(counter: string -> nat, items: seq<Item>): nat {
    counter(Join(" ", Lines(items)))
  }

  /** Index of the last optional item after the query, or -1. */
  function LastRemovable(items: seq<Item>): (index: int)
    ensures index == -1 || 1 <= index < |items|
    ensures index >= 1 ==> !items[index].required
    ensures forall i :: Max(index, 0) < i < |items| ==> items[i].required
  {
    if |items| <= 1 then -1
    else if !items[|items| - 1].required then |items| - 1
    else LastRemovable(items[..|items| - 1])
  }

  function Without(items: seq<Item>, index: nat): seq<Item>
    requires index < |items|
  {
    items[..index] + items[index + 1..]
  }

  type Reasons = map<nat, DropReason>

  function Trim(counter: string -> nat, items: seq<Item>, budget: nat, reasons: Reasons): (seq<Item>, Reasons)
    decreases |items|
  {
    var index := LastRemovable(items);
    if Measure(counter, items) <= budget || index == -1 then (items, reasons)
    else Trim(counter, Without(items, index), budget, reasons[items[index].sequence := TokenBudget])
  }

  function Mark(items: seq<Item>): Reasons {
    if items == [] then map[] else Mark(items[..|items| - 1])[items[|items| - 1].sequence := LineCap]
  }

  /** Everything past the cap is dropped for that reason. */
  function Capped(items: seq<Item>, cap: int): Reasons {
    Mark(items[|Take(items, cap)|..])
  }

  function CountRequired(items: seq<Item>): nat {
    |Filter(IsRequired, items)|
  }

  /** The items a flat context keeps, and why the others were dropped. */
  function Select(counter: string -> nat, query: Item, memory: seq<Item>, evidence: seq<Item>,
                  maxMemory: nat, maxEvidence: nat, budget: nat, limits: bool): (seq<Item>, Reasons)
  {
    if !limits then ([query] + memory + evidence, map[])
    else
      var cap := Max(maxEvidence, CountRequired(evidence));
      Trim(counter, [query] + Take(memory, maxMemory) + Take(evidence, cap), budget,
           Capped(memory, maxMemory) + Capped(evidence, cap))
  }

  method SelectItems(counter: string -> nat, query: Item, memory: seq<Item>, evidence: seq<Item>,
                     maxMemory: nat, maxEvidence: nat, budget: nat, limits: bool)
    returns (selected: seq<Item>, reasons: Reasons)
    ensures (selected, reasons) == Select(counter, query, memory, evidence, maxMemory, maxEvidence, budget, limits)
  {
    reasons := map[];
    if !limits {
      return [query] + memory + evidence, reasons;
    }
    var cap := Max(maxEvidence, CountRequired(evidence));
    reasons := Capped(memory, maxMemory) + Capped(evidence, cap);
    selected := [query] + Take(memory, maxMemory) + Take(evidence, cap);
    while Measure(counter, selected) > budget
      invariant Trim(counter, selected, budget, reasons)
             == Select(counter, query, memory, evidence, maxMemory, maxEvidence, budget, limits)
      decreases |selected|
    {
      var index := LastRemovable(selected);
      if index == -1 {
        break;
      }
      var removed := selected[index];
      selected := Without(selected, index);
      reasons := reasons[removed.sequence := TokenBudget];
    }
  }

  // ---- trimming keeps the longest prefix of the optional items that fits ----

  /** Required items and the first k optional ones, in order. */
  function KeepFirst(items: seq<Item>, k: nat): seq<Item> {
    if items == [] then []
    else if items[0].required then [items[0]] + KeepFirst(items[1..], k)
    else if k > 0 then [items[0]] + KeepFirst(items[1..], k - 1)
    else KeepFirst(items[1..], 0)
  }

  function CountOptional(items: seq<Item>): nat {
    if items == [] then 0 else CountOptional(items[1..]) + if items[0].required then 0 else 1
  }

  lemma {:induction false} KeepAll(items: seq<Item>)
    ensures KeepFirst(items, CountOptional(items)) == items
  {
    if items != [] {
      KeepAll(items[1..]);
    }
  }

  lemma {:induction false} KeepNoneRequired(items: seq<Item>)
    ensures forall x :: x in KeepFirst(items, 0) ==> x.required
  {
    if items != [] {
      KeepNoneRequired(items[1..]);
    }
  }

  lemma CountStep(items: seq<Item>)
    ensures CountOptional(items) > 0 ==> items != []
    ensures items != [] ==> CountOptional(items) == CountOptional(items[1..]) + if items[0].required then 0 else 1
  {
  }

  /** The item at a position is optional, and every later one is required. */
  ghost predicate LastOptional(items: seq<Item>, at: nat) {
    at < |items| && !items[at].required && forall i :: at < i < |items| ==> items[i].required
  }

  lemma FirstOut(x: Item, s: seq<Item>)
    requires !x.required && forall y :: y in s ==> y.required
    ensures Without([x] + s, 0) == s && LastOptional([x] + s, 0)
  {
    assert forall i :: 0 < i <= |s| ==> ([x] + s)[i] == s[i - 1];
  }

  lemma KeepStep(items: seq<Item>, k: nat)
    requires items != []
    ensures KeepFirst(items, k) ==
      if items[0].required then [items[0]] + KeepFirst(items[1..], k)
      else if k > 0 then [items[0]] + KeepFirst(items[1..], k - 1)
      else KeepFirst(items[1..], 0)
  {
  }

  lemma ShiftByOne(x: Item, s: seq<Item>, at: nat)
    requires LastOptional(s, at)
    ensures Without([x] + s, at + 1) == [x] + Without(s, at)
    ensures LastOptional([x] + s, at + 1)
  {
    assert forall i :: 0 < i <= |s| ==> ([x] + s)[i] == s[i - 1];
  }

  lemma {:induction false} KthOptional(items: seq<Item>, k: nat) returns (at: nat)
    requires 0 < k <= CountOptional(items)
    ensures LastOptional(KeepFirst(items, k), at)
    ensures KeepFirst(items, k - 1) == Without(KeepFirst(items, k), at)
  {
    hide KeepFirst, Without, LastOptional, CountOptional;
    CountStep(items);
    var x, rest := items[0], items[1..];
    KeepStep(items, k);
    KeepStep(items, k - 1);
    if x.required {
      var before := KthOptional(rest, k);
      ShiftByOne(x, KeepFirst(rest, k), before);
      at := before + 1;
    } else if k == 1 {
      at := 0;
      KeepNoneRequired(rest);
      FirstOut(x, KeepFirst(rest, 0));
    } else {
      var before := KthOptional(rest, k - 1);
      ShiftByOne(x, KeepFirst(rest, k - 1), before);
      at := before + 1;
    }
  }

  lemma LastIs(items: seq<Item>, at: nat)
    requires 1 <= at && LastOptional(items, at)
    ensures LastRemovable(items) == at
  {
  }

  /** With at least one optional item kept, the last removable one is the k-th. */
  lemma {:induction false} DropKth(query: Item, items: seq<Item>, k: nat)
    requires 0 < k <= CountOptional(items)
    ensures var index := LastRemovable([query] + KeepFirst(items, k));
      index >= 1 && Without([query] + KeepFirst(items, k), index) == [query] + KeepFirst(items, k - 1)
  {
    hide KeepFirst;
    var at := KthOptional(items, k);
    var kept := KeepFirst(items, k);
    ShiftByOne(query, kept, at);
    LastIs([query] + kept, at + 1);
  }

  ghost predicate Fits(counter: string -> nat, query: Item, items: seq<Item>, k: nat, budget: nat) {
    Measure(counter, [query] + KeepFirst(items, k)) <= budget
  }

  /** Nothing more can be removed once no optional item is left. */
  lemma TrimmedOut(counter: string -> nat, query: Item, items: seq<Item>, budget: nat, reasons: Reasons)
    ensures Trim(counter, [query] + KeepFirst(items, 0), budget, reasons).0 == [query] + KeepFirst(items, 0)
  {
    hide Measure, KeepFirst;
    KeepNoneRequired(items);
    var kept := [query] + KeepFirst(items, 0);
    assert forall i :: 1 <= i < |kept| ==> kept[i] in KeepFirst(items, 0);
  }

  /** Flat trimming ends with the longest prefix of the optional items that fits the budget, or with
      the query and required items only; the query itself is never removed. */
  lemma {:induction false} TrimKeepsLongestPrefix(counter: string -> nat, query: Item, items: seq<Item>, k: nat,
                                                  budget: nat, reasons: Reasons) returns (left: nat)
    requires k <= CountOptional(items)
    ensures left <= k && Trim(counter, [query] + KeepFirst(items, k), budget, reasons).0 == [query] + KeepFirst(items, left)
    ensures left == 0 || Fits(counter, query, items, left, budget)
    ensures forall j :: left < j <= k ==> !Fits(counter, query, items, j, budget)
  {
    hide Measure, Without, LastRemovable, KeepFirst, CountOptional;
    left := k;
    if !Fits(counter, query, items, k, budget) {
      if k == 0 {
        TrimmedOut(counter, query, items, budget, reasons);
      } else {
        var kept := [query] + KeepFirst(items, k);
        DropKth(query, items, k);
        left := TrimKeepsLongestPrefix(counter, query, items, k - 1, budget,
                                       reasons[kept[LastRemovable(kept)].sequence := TokenBudget]);
      }
    }
  }

  lemma {:induction false} KeepFirstRequired(items: seq<Item>, k: nat)
    ensures Filter(IsRequired, KeepFirst(items, k)) == Filter(IsRequired, items)
    ensures forall x :: x in KeepFirst(items, k) ==> x in items
  {
    if items != [] {
      KeepFirstRequired(items[1..], if items[0].required || k == 0 then k else k - 1);
      var kept := KeepFirst(items, k);
      if kept != [] {
        assert kept == [kept[0]] + kept[1..];
      }
    }
  }

  // ---- every dropped item has its reason ----

  function Numbers(items: seq<Item>): seq<nat> {
    seq(|items|, i requires 0 <= i < |items| => items[i].sequence)
  }

  lemma NumbersJoin(a: seq<Item>, b: seq<Item>)
    ensures Numbers(a + b) == Numbers(a) + Numbers(b)
  {
  }

  lemma NumbersWithout(items: seq<Item>, index: nat, n: nat)
    requires Distinct(Numbers(items)) && index < |items|
    ensures n in Numbers(Without(items, index)) <==> n in Numbers(items) && n != items[index].sequence
    ensures Distinct(Numbers(Without(items, index)))
  {
    var s, w := Numbers(items), Numbers(Without(items, index));
    assert w == s[..index] + s[index + 1..];
    assert s == s[..index] + [s[index]] + s[index + 1..];
  }

  lemma NumberAt(items: seq<Item>, index: nat)
    requires index < |items|
    ensures items[index].sequence in Numbers(items)
  {
    assert Numbers(items)[index] == items[index].sequence;
  }

  /** Trimming records exactly the sequence numbers it removes, and leaves the other reasons alone. */
  lemma {:induction false} TrimRecords(counter: string -> nat, items: seq<Item>, budget: nat, reasons: Reasons, n: nat)
    requires Distinct(Numbers(items))
    ensures var (kept, why) := Trim(counter, items, budget, reasons);
      if n in Numbers(items) && n !in Numbers(kept) then n in why && why[n] == TokenBudget
      else (n in why <==> n in reasons) && (n in why ==> why[n] == reasons[n])
    ensures n in Numbers(Trim(counter, items, budget, reasons).0) ==> n in Numbers(items)
    decreases |items|
  {
    hide Measure, Numbers;
    var index := LastRemovable(items);
    if Measure(counter, items) > budget && index != -1 {
      NumbersWithout(items, index, n);
      NumberAt(items, index);
      TrimRecords(counter, Without(items, index), budget, reasons[items[index].sequence := TokenBudget], n);
    }
  }

  lemma {:induction false} MarkNumbers(items: seq<Item>)
    ensures forall n :: n in Mark(items) <==> n in Numbers(items)
    ensures forall n :: n in Mark(items) ==> Mark(items)[n] == LineCap
  {
    if items != [] {
      var init, last := items[..|items| - 1], items[|items| - 1];
      MarkNumbers(init);
      assert items == init + [last];
      NumbersJoin(init, [last]);
      assert Numbers([last]) == [last.sequence];
    }
  }

  lemma CappedNumbers(items: seq<Item>, cap: int)
    ensures Numbers(items) == Numbers(Take(items, cap)) + Numbers(items[|Take(items, cap)|..])
    ensures forall n :: n in Capped(items, cap) <==> n in Numbers(items[|Take(items, cap)|..])
    ensures forall n :: n in Capped(items, cap) ==> Capped(items, cap)[n] == LineCap
  {
    hide Mark, Numbers;
    var rest := items[|Take(items, cap)|..];
    assert items == Take(items, cap) + rest;
    NumbersJoin(Take(items, cap), rest);
    MarkNumbers(rest);
  }

  lemma DistinctParts(q: seq<nat>, m: seq<nat>, mRest: seq<nat>, e: seq<nat>, eRest: seq<nat>, n: nat)
    requires Distinct(q + (m + mRest) + (e + eRest))
    ensures Distinct(q + m + e)
    ensures n in q + m + e ==> n !in mRest && n !in eRest
  {
    var all := q + (m + mRest) + (e + eRest);
    var some := q + m + e;
    forall i | 0 <= i < |some| ensures some[i] == all[if i < |q + m| then i else i + |mRest|] {}
    forall i | 0 <= i < |mRest| ensures mRest[i] == all[|q + m| + i] {}
    forall i | 0 <= i < |eRest| ensures eRest[i] == all[|q + m + mRest + e| + i] {}
  }

  /** Every item that is not kept was recorded: with the line cap if it was cut before trimming, with
      the token budget if it was trimmed. Nothing that is kept has a reason. */
  lemma EveryDropHasItsReason(counter: string -> nat, query: Item, memory: seq<Item>, evidence: seq<Item>,
                              maxMemory: nat, maxEvidence: nat, budget: nat, n: nat)
    requires Distinct(Numbers([query] + memory + evidence))
    ensures var (kept, why) := Select(counter, query, memory, evidence, maxMemory, maxEvidence, budget, true);
      var cap := Max(maxEvidence, CountRequired(evidence));
      var first := [query] + Take(memory, maxMemory) + Take(evidence, cap);
      && (n in why <==> n in Numbers([query] + memory + evidence) && n !in Numbers(kept))
      && (n in why ==> why[n] == if n in Numbers(first) then TokenBudget else LineCap)
  {
    hide Trim, Capped, Numbers, Distinct;
    var cap := Max(maxEvidence, CountRequired(evidence));
    var m, e := Take(memory, maxMemory), Take(evidence, cap);
    CappedNumbers(memory, maxMemory);
    CappedNumbers(evidence, cap);
    NumbersJoin([query] + memory, evidence);
    NumbersJoin([query], memory);
    NumbersJoin([query] + m, e);
    NumbersJoin([query], m);
    DistinctParts(Numbers([query]), Numbers(m), Numbers(memory[|m|..]), Numbers(e), Numbers(evidence[|e|..]), n);
    TrimRecords(counter, [query] + m + e, budget, Capped(memory, maxMemory) + Capped(evidence, cap), n);
  }
}
