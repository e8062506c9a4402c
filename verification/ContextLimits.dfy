/** The exact token budgets up to which the compiler's comment on overflow is right for every request
    (core/context/compiler.py). */
module ContextLimits {
  import opened Basics
  import opened Sorting
  import opened TokenText
  import opened Apportionment
  import opened Reclaim
  import opened ContextCompiler
  import opened ContextGuarantees
  import opened ContextOverflow

  // ---- sums over sections ----

  lemma {:induction false} TotalOfTwo(names: seq<Section>, m: map<Section, int>, a: Section, b: Section)
    requires a in names && b in names && a != b && forall s :: s in names ==> s in m && m[s] >= 0
    ensures m[a] + m[b] <= Total(names, m)
  {
    if names[0] == a || names[0] == b {
      TotalNonnegativeAt(names[1..], m, if names[0] == a then b else a);
    } else {
      TotalOfTwo(names[1..], m, a, b);
    }
  }

  lemma {:induction false} HeadingsAreTotal(counter: string -> nat, names: seq<Section>, m: map<Section, int>)
    requires forall s :: s in names ==> s in m && m[s] == counter(Heading(s))
    ensures HeadingTokens(counter, names) == Total(names, m)
  {
    if names != [] {
      HeadingsAreTotal(counter, names[1..], m);
    }
  }

  lemma {:induction false} WeightsAreTotal(names: seq<Section>, m: map<Section, int>)
    requires forall s :: s in names ==> s in m && m[s] == Weight(s)
    ensures WeightTotal(names) == Total(names, m)
  {
    if names != [] {
      WeightsAreTotal(names[1..], m);
    }
  }

  lemma TotalOfFour(a: Section, b: Section, c: Section, d: Section, m: map<Section, int>)
    requires a in m && b in m && c in m && d in m
    ensures Total([a, b, c, d], m) == m[a] + m[b] + m[c] + m[d]
  {
    assert Total([d], m) == m[d] by { assert [d][1..] == []; }
    assert Total([c, d], m) == m[c] + m[d] by { assert [c, d][1..] == [d]; }
    assert Total([b, c, d], m) == m[b] + m[c] + m[d] by { assert [b, c, d][1..] == [c, d]; }
    assert [a, b, c, d][1..] == [b, c, d];
  }

  lemma TotalOfAll(m: map<Section, int>)
    requires forall s :: s in SECTION_NAMES ==> s in m
    ensures forall s: Section :: s in m
    ensures Total(SECTION_NAMES, m) == m[CurrentState] + m[TaskSpec] + m[Assets] + m[Workflow] + m[Errors] + m[Evidence]
                                       + m[Learnings] + m[KeyResults]
  {
    hide Total;
    forall s: Section ensures s in m {
      Listed(s);
    }
    TotalSplits([CurrentState, TaskSpec, Assets, Workflow], [Errors, Evidence, Learnings, KeyResults], m);
    TotalOfFour(CurrentState, TaskSpec, Assets, Workflow, m);
    TotalOfFour(Errors, Evidence, Learnings, KeyResults, m);
    assert SECTION_NAMES == [CurrentState, TaskSpec, Assets, Workflow] + [Errors, Evidence, Learnings, KeyResults];
  }

  // ---- construction ----

  ghost predicate NamesAll(budgets: map<Section, int>) {
    forall s: Section :: s in budgets
  }

  ghost predicate FitsBeside(m: map<Section, int>, counter: string -> nat, tokenBudget: int) {
    && NamesAll(m) && (forall s: Section :: m[s] >= 0)
    && m[CurrentState] + m[TaskSpec] + m[Assets] + m[Workflow] + m[Errors] + m[Evidence] + m[Learnings] + m[KeyResults]
       <= Max(0, tokenBudget - HeadingTokens(counter, SECTION_NAMES))
  }

  /** When a compiler can be made: positive limits, and budgets, if they are supplied, for all eight sections, none of them
      negative, that fit beside the headings; they are then the reservations. */
  lemma CreatedIff(tokenBudget: int, enabled: bool, maxMemoryLines: int, maxEvidenceLines: int,
                   strategy: Strategy, supplied: Option<map<Section, int>>, counter: string -> nat)
    ensures var r := Create(tokenBudget, enabled, maxMemoryLines, maxEvidenceLines, strategy, supplied, counter);
      && (r.Ok? <==> tokenBudget >= 1 && maxMemoryLines >= 1 && maxEvidenceLines >= 1
                     && (supplied.Some? ==> FitsBeside(supplied.value, counter, tokenBudget)))
      && (r.Ok? ==> r.value.tokenBudget == tokenBudget && r.value.enabled == enabled && r.value.maxMemoryLines == maxMemoryLines
                    && r.value.maxEvidenceLines == maxEvidenceLines && r.value.strategy == strategy && r.value.counter == counter
                    && (supplied.Some? ==> r.value.sectionBudgets == supplied.value))
      && (r.Err? ==>
            match r.error
            case TokenBudgetBelowOne => tokenBudget < 1
            case LineCapBelowOne => tokenBudget >= 1 && (maxMemoryLines < 1 || maxEvidenceLines < 1)
            case SectionsMissing => supplied.Some? && !NamesAll(supplied.value)
            case SectionBudgetNegative => supplied.Some? && NamesAll(supplied.value) && exists s: Section :: supplied.value[s] < 0
            case SectionBudgetsExceedAvailable =>
              supplied.Some? && NamesAll(supplied.value) && !FitsBeside(supplied.value, counter, tokenBudget)
              && forall s: Section :: supplied.value[s] >= 0
            case EvidenceWithoutId => false)
  {
    hide Total, WeightTotal, HeadingTokens, Shares;
    WeightsAddUp();
    forall s: Section ensures s in SECTION_NAMES {
      Listed(s);
    }
    if supplied.Some? && NamesAll(supplied.value) {
      TotalOfAll(supplied.value);
    }
  }

  // ---- the headings ----

  /** The words of a heading. */
  function Words(s: Section): seq<string> {
    match s
    case CurrentState => ["##", "Current", "State"]
    case TaskSpec => ["##", "Task", "Spec"]
    case Assets => ["##", "Assets", "&", "Entities"]
    case Workflow => ["##", "Workflow"]
    case Errors => ["##", "Errors", "&", "Corrections"]
    case Evidence => ["##", "Evidence"]
    case Learnings => ["##", "Learnings"]
    case KeyResults => ["##", "Key", "Results"]
  }

  lemma JoinTwo(a: string, b: string)
    ensures Join(" ", [a, b]) == a + " " + b
  {
    assert [a, b][1..] == [b];
  }

  lemma JoinFirst(a: string, rest: seq<string>)
    requires rest != []
    ensures Join(" ", [a] + rest) == a + " " + Join(" ", rest)
  {
    assert ([a] + rest)[1..] == rest;
  }

  lemma JoinThree(a: string, b: string, c: string)
    ensures Join(" ", [a, b, c]) == a + " " + (b + " " + c)
  {
    hide Join;
    JoinTwo(b, c);
    JoinFirst(a, [b, c]);
    assert [a] + [b, c] == [a, b, c];
  }

  lemma LongTitles()
    ensures "Assets & Entities" == "Assets" + " " + ("&" + " " + "Entities")
    ensures "Errors & Corrections" == "Errors" + " " + ("&" + " " + "Corrections")
  {
  }

  lemma ShortTitles()
    ensures "Current State" == "Current" + " " + "State" && "Task Spec" == "Task" + " " + "Spec"
    ensures "Key Results" == "Key" + " " + "Results"
  {
  }

  lemma JoinOne(a: string)
    ensures Join(" ", [a]) == a
  {
  }

  lemma TitleIsWords(s: Section)
    ensures Title(s) == Join(" ", Words(s)[1..])
  {
    hide Join;
    LongTitles();
    ShortTitles();
    match s
    case CurrentState => JoinTwo("Current", "State"); assert Words(s)[1..] == ["Current", "State"];
    case TaskSpec => JoinTwo("Task", "Spec"); assert Words(s)[1..] == ["Task", "Spec"];
    case Assets => JoinThree("Assets", "&", "Entities"); assert Words(s)[1..] == ["Assets", "&", "Entities"];
    case Workflow => JoinOne("Workflow"); assert Words(s)[1..] == ["Workflow"];
    case Errors => JoinThree("Errors", "&", "Corrections"); assert Words(s)[1..] == ["Errors", "&", "Corrections"];
    case Evidence => JoinOne("Evidence"); assert Words(s)[1..] == ["Evidence"];
    case Learnings => JoinOne("Learnings"); assert Words(s)[1..] == ["Learnings"];
    case KeyResults => JoinTwo("Key", "Results"); assert Words(s)[1..] == ["Key", "Results"];
  }

  lemma BlankMoves(title: string)
    ensures "## " + title == "##" + " " + title
  {
  }

  lemma HeadingIsWords(s: Section)
    ensures Heading(s) == Join(" ", Words(s))
  {
    hide Join, Title;
    var rest := Words(s)[1..];
    assert Words(s) == ["##"] + rest;
    JoinFirst("##", rest);
    TitleIsWords(s);
    BlankMoves(Title(s));
  }

  lemma WordIsRun(s: Section, i: nat)
    requires i < |Words(s)|
    ensures DefaultTokenCounter(Words(s)[i]) == 1
  {
    hide DefaultTokenCounter;
    OneRun(Words(s)[i], if Words(s)[i] == "##" || Words(s)[i] == "&" then Other else Word);
  }

  lemma {:induction false} SumOfOnes(parts: seq<string>)
    requires forall i :: 0 <= i < |parts| ==> DefaultTokenCounter(parts[i]) == 1
    ensures SumOf(DefaultTokenCounter, parts) == |parts|
  {
    if parts != [] {
      SumOfOnes(parts[1..]);
    }
  }

  lemma HeadingCosts(s: Section)
    ensures DefaultTokenCounter(Heading(s)) == |Words(s)|
  {
    hide DefaultTokenCounter, Heading, Words, IsSpace;
    HeadingIsWords(s);
    forall i | 0 <= i < |Words(s)| ensures DefaultTokenCounter(Words(s)[i]) == 1 {
      WordIsRun(s, i);
    }
    SumOfOnes(Words(s));
    Blanks();
    CountOfJoin(' ', Words(s));
    assert [' '] == " ";
  }

  ghost function HeadingCost(): map<Section, int> {
    map s: Section | s in SECTION_NAMES :: |Words(s)|
  }

  lemma HeadingCostIs()
    ensures forall s: Section :: s in HeadingCost() && HeadingCost()[s] == DefaultTokenCounter(Heading(s)) >= 2
  {
    forall s: Section ensures s in HeadingCost() && HeadingCost()[s] == DefaultTokenCounter(Heading(s)) >= 2 {
      Listed(s);
      HeadingCosts(s);
    }
  }

  /** All eight headings cost 23 tokens. */
  lemma AllHeadings()
    ensures HeadingTokens(DefaultTokenCounter, SECTION_NAMES) == 23
  {
    hide DefaultTokenCounter, Heading, Total, HeadingTokens;
    HeadingCostIs();
    HeadingsAreTotal(DefaultTokenCounter, SECTION_NAMES, HeadingCost());
    TotalOfAll(HeadingCost());
  }

  // ---- the default reservations ----

  /** t has a larger fraction than s, or an equal one and an earlier place. */
  ghost predicate ComesBefore(available: nat, s: Section, t: Section) {
    || Frac(available, 100, t) > Frac(available, 100, s)
    || (Frac(available, 100, t) == Frac(available, 100, s) && Index(t) < Index(s))
  }

  /** Up to four tokens of content, only evidence has a whole token in its quota, and the fractions of three other
      sections come before its own. */
  lemma SmallDefaultQuotas(available: nat, s: Section)
    requires available <= 4 && s != TaskSpec
    ensures Floor(available, 100, s) <= 1 && (Floor(available, 100, s) == 1 ==> s == Evidence && available >= 3)
    ensures available >= 3 && s in {Assets, Workflow} ==> ComesBefore(available, Evidence, s)
    ensures available >= 3 ==> ComesBefore(available, Evidence, TaskSpec)
  {
  }

  lemma EachListed()
    ensures forall s: Section :: s in SECTION_NAMES
  {
    forall s: Section ensures s in SECTION_NAMES {
      Listed(s);
    }
  }

  /** What a section is reserved if the caller supplies no budgets. */
  function DefaultShares(available: nat): (m: map<Section, int>)
    ensures forall s: Section :: s in m
  {
    WeightsAddUp();
    SharesKeys(SECTION_NAMES, available);
    assert forall s: Section :: s in SECTION_NAMES by { EachListed(); }
    Shares(SECTION_NAMES, available)
  }

  lemma FloorNonnegative(available: nat, w: nat, t: Section)
    requires w > 0
    ensures Floor(available, w, t) >= 0
  {
  }

  lemma DefaultIsRounded(available: nat, s: Section)
    ensures DefaultShares(available)[s] in {Floor(available, 100, s), Floor(available, 100, s) + 1}
    ensures DefaultShares(available)[s] >= 0
  {
    hide Shares, WeightTotal, Floor;
    WeightsAddUp();
    EachListed();
    SharesAreRounded(SECTION_NAMES, available, s);
    FloorNonnegative(available, 100, s);
  }

  lemma DefaultAddsUp(available: nat)
    ensures Total(SECTION_NAMES, DefaultShares(available)) == available
  {
    hide Shares, WeightTotal;
    WeightsAddUp();
    SharesAddUp(SECTION_NAMES, available);
  }

  lemma FloorOfHundreds(n: nat, t: Section)
    ensures Floor(100 * n, 100, t) == n * Weight(t)
  {
    assert 100 * n * Weight(t) == 100 * (n * Weight(t));
  }

  /** The weights: every hundred tokens are shared out exactly so. */
  lemma HundredsAreShared(n: nat)
    ensures var m := DefaultShares(100 * n);
      && m[CurrentState] == 4 * n && m[TaskSpec] == 16 * n && m[Assets] == 10 * n && m[Workflow] == 10 * n
      && m[Errors] == 5 * n && m[Evidence] == 35 * n && m[Learnings] == 10 * n && m[KeyResults] == 10 * n
  {
    hide DefaultShares, Floor, Total;
    forall s: Section ensures DefaultShares(100 * n)[s] >= n * Weight(s) {
      DefaultIsRounded(100 * n, s);
      FloorOfHundreds(n, s);
    }
    DefaultAddsUp(100 * n);
    TotalOfAll(DefaultShares(100 * n));
  }

  /** If s is rounded up, so is every section with a larger fraction, or an equal one and an earlier place. */
  lemma RoundedBefore(available: nat, s: Section, t: Section)
    requires DefaultShares(available)[s] > Floor(available, 100, s) && ComesBefore(available, s, t)
    ensures DefaultShares(available)[t] == Floor(available, 100, t) + 1
  {
    hide Shares, WeightTotal, Floor, Frac;
    WeightsAddUp();
    EachListed();
    SharesAreRounded(SECTION_NAMES, available, s);
    SharesAreRounded(SECTION_NAMES, available, t);
    if DefaultShares(available)[t] == Floor(available, 100, t) {
      SharesAreFair(SECTION_NAMES, available, s, t);
      assert false;
    }
  }

  /** Up to four tokens of content, no section but the query's is reserved more than one. */
  lemma SmallDefaultShares(available: nat, s: Section)
    requires available <= 4 && s != TaskSpec
    ensures DefaultShares(available)[s] <= 1
  {
    hide Total, DefaultShares, Floor, Frac, ComesBefore;
    var m := DefaultShares(available);
    DefaultIsRounded(available, s);
    SmallDefaultQuotas(available, s);
    if m[s] > 1 {
      forall t: Section ensures m[t] >= 0 {
        DefaultIsRounded(available, t);
      }
      SmallDefaultQuotas(available, Assets);
      SmallDefaultQuotas(available, Workflow);
      RoundedBefore(available, Evidence, TaskSpec);
      RoundedBefore(available, Evidence, Assets);
      RoundedBefore(available, Evidence, Workflow);
      FloorNonnegative(available, 100, TaskSpec);
      FloorNonnegative(available, 100, Assets);
      FloorNonnegative(available, 100, Workflow);
      TotalOfAll(m);
      DefaultAddsUp(available);
      assert false;
    }
  }

  /** From five tokens on, evidence is reserved at least two. */
  lemma LargeDefaultShare(available: nat)
    requires available >= 5
    ensures DefaultShares(available)[Evidence] >= 2
  {
    hide Total, DefaultShares;
    var m := DefaultShares(available);
    DefaultIsRounded(available, Evidence);
    if available == 5 && m[Evidence] < 2 {
      forall t: Section | t !in {TaskSpec, Evidence} ensures m[t] == 0 {
        DefaultIsRounded(available, t);
        assert Floor(5, 100, t) == 0;
        if m[t] > 0 {
          RoundedBefore(available, t, Evidence);
          assert false;
        }
      }
      DefaultIsRounded(available, TaskSpec);
      DefaultAddsUp(available);
      TotalOfAll(m);
      assert false;
    }
  }

  // ---- adaptive reservations ----

  lemma AtLeast(w: nat, f: nat, k: nat)
    ensures f >= k ==> w * f >= w * k
  {
  }

  /** The only way to a second token is from one whole and a fraction smaller than the query's. */
  lemma SmallQuota(available: nat, w: nat, s: Section)
    requires available <= 2 && s != TaskSpec && w >= 16 + Weight(s)
    ensures Floor(available, w, s) <= 1
    ensures Floor(available, w, s) == 1 ==> Frac(available, w, s) < Frac(available, w, TaskSpec)
  {
    hide Floor, Frac;
    QuotaParts(available, w, s);
    QuotaParts(available, w, TaskSpec);
    AtLeast(w, Floor(available, w, s), 2);
    AtLeast(w, Floor(available, w, TaskSpec), 1);
  }

  /** With at most two tokens to share, no section beside the query's gets both. */
  lemma SmallAdaptiveShares(names: seq<Section>, available: nat, s: Section)
    requires available <= 2 && Distinct(names) && TaskSpec in names && s in names && s != TaskSpec && WeightTotal(names) > 0
    ensures s in Shares(names, available) && Shares(names, available)[s] <= 1
  {
    hide Shares, Total, WeightTotal, Floor, Frac;
    var w, m := WeightTotal(names), Shares(names, available);
    SharesKeys(names, available);
    var weights := map t: Section | t in names :: Weight(t) as int;
    WeightsAreTotal(names, weights);
    TotalOfTwo(names, weights, TaskSpec, s);
    SharesAreRounded(names, available, s);
    QuotaParts(available, w, s);
    QuotaParts(available, w, TaskSpec);
    if m[s] > 1 {
      SmallQuota(available, w, s);
      forall t | t in names ensures m[t] >= 0 {
        SharesAreRounded(names, available, t);
        FloorNonnegative(available, w, t);
      }
      SharesAreRounded(names, available, TaskSpec);
      if m[TaskSpec] == Floor(available, w, TaskSpec) {
        SharesAreFair(names, available, s, TaskSpec);
        assert false;
      }
      FloorNonnegative(available, w, TaskSpec);
      TotalOfTwo(names, m, TaskSpec, s);
      SharesAddUp(names, available);
      assert false;
    }
  }

  lemma ActiveStep(names: seq<Section>, inputs: Inputs)
    requires names != [] && forall s :: s in names ==> s in inputs
    ensures ActiveNames(names, inputs, true) == (if inputs[names[0]] == [] then [] else [names[0]]) + ActiveNames(names[1..], inputs, true)
  {
  }

  lemma {:induction false} NoneActive(names: seq<Section>, inputs: Inputs)
    requires forall s :: s in names ==> s in inputs && inputs[s] == []
    ensures ActiveNames(names, inputs, true) == []
  {
    if names != [] {
      NoneActive(names[1..], inputs);
    }
  }

  lemma {:induction false} ActiveSplits(a: seq<Section>, b: seq<Section>, inputs: Inputs)
    requires forall s: Section :: s in inputs
    ensures ActiveNames(a + b, inputs, true) == ActiveNames(a, inputs, true) + ActiveNames(b, inputs, true)
  {
    hide ActiveNames;
    if a == [] {
      NoneActive(a, inputs);
      assert a + b == b;
    } else {
      ActiveSplits(a[1..], b, inputs);
      ActiveStep(a, inputs);
      ActiveStep(a + b, inputs);
      assert (a + b)[0] == a[0] && (a + b)[1..] == a[1..] + b;
    }
  }

  lemma OneActive(s: Section, inputs: Inputs)
    requires s in inputs && inputs[s] != []
    ensures ActiveNames([s], inputs, true) == [s]
  {
    assert [s][1..] == [];
  }

  lemma ActiveOfTwo(inputs: Inputs)
    requires forall s :: s in SECTION_NAMES ==> s in inputs && (inputs[s] != [] <==> s in {TaskSpec, Evidence})
    ensures ActiveNames(SECTION_NAMES, inputs, true) == [TaskSpec, Evidence]
  {
    hide ActiveNames;
    forall s: Section ensures s in inputs && (inputs[s] != [] <==> s in {TaskSpec, Evidence}) {
      Listed(s);
    }
    var a, b := [CurrentState], [Assets, Workflow, Errors];
    var c := [Learnings, KeyResults];
    assert SECTION_NAMES == a + ([TaskSpec] + (b + ([Evidence] + c)));
    ActiveSplits(a, [TaskSpec] + (b + ([Evidence] + c)), inputs);
    ActiveSplits([TaskSpec], b + ([Evidence] + c), inputs);
    ActiveSplits(b, [Evidence] + c, inputs);
    ActiveSplits([Evidence], c, inputs);
    NoneActive(a, inputs);
    NoneActive(b, inputs);
    NoneActive(c, inputs);
    OneActive(TaskSpec, inputs);
    OneActive(Evidence, inputs);
  }

  lemma AdaptiveNames(cost: nat)
    ensures Names(OverlongRequest(Evidence, cost), true) == [TaskSpec, Evidence]
  {
    hide ActiveNames, SectionInputs, OverlongRequest;
    OverlongInputs(Evidence, cost);
    ActiveOfTwo(SectionInputs(OverlongRequest(Evidence, cost)));
  }

  lemma AdaptiveShare(available: nat)
    requires available >= 3
    ensures WeightTotal([TaskSpec, Evidence]) == 51 && Distinct([TaskSpec, Evidence])
    ensures Evidence in Shares([TaskSpec, Evidence], available) && Shares([TaskSpec, Evidence], available)[Evidence] >= 2
  {
    hide Shares, Total;
    assert [TaskSpec, Evidence][1..] == [Evidence] && [Evidence][1..] == [];
    SharesKeys([TaskSpec, Evidence], available);
    SharesAreRounded([TaskSpec, Evidence], available, Evidence);
  }

  lemma AdaptiveHeadings()
    ensures HeadingTokens(DefaultTokenCounter, [TaskSpec, Evidence]) == 5
  {
    hide DefaultTokenCounter, Heading;
    HeadingCosts(TaskSpec);
    HeadingCosts(Evidence);
    assert [TaskSpec, Evidence][1..] == [Evidence] && [Evidence][1..] == [];
  }

  /** Two active sections, the query's among them, leave at most tokenBudget - 5 tokens. */
  lemma TwoHeadings(names: seq<Section>, s: Section)
    requires TaskSpec in names && s in names && s != TaskSpec
    ensures HeadingTokens(DefaultTokenCounter, names) >= 5
  {
    hide DefaultTokenCounter, Heading, HeadingTokens, Total;
    HeadingCostIs();
    HeadingsAreTotal(DefaultTokenCounter, names, HeadingCost());
    TotalOfTwo(names, HeadingCost(), TaskSpec, s);
    assert HeadingCost()[TaskSpec] == 3;
  }

  // ---- the limits ----

  lemma BudgetFits(c: Compiler, s: Section)
    requires Valid(c) && c.counter == DefaultTokenCounter
    ensures s in c.sectionBudgets && 0 <= c.sectionBudgets[s] <= Available(c.counter, c.tokenBudget, SECTION_NAMES)
    ensures Available(c.counter, c.tokenBudget, SECTION_NAMES) == Max(0, c.tokenBudget - 23)
  {
    hide DefaultTokenCounter, HeadingTokens, Total;
    Listed(s);
    AllHeadings();
    TotalNonnegativeAt(SECTION_NAMES, c.sectionBudgets, s);
  }

  lemma StructuredNames(r: Request)
    ensures Names(r, false) == SECTION_NAMES
  {
    hide SectionInputs;
    AllActive(SECTION_NAMES, SectionInputs(r));
  }

  /** A section of evidence or memories that is reserved two tokens or more can overshoot, if there are three to share in
      the case of memories. */
  lemma StructuredOvershoots(c: Compiler, s: Section) returns (r: Request)
    requires Valid(c) && c.counter == DefaultTokenCounter && s in LENDERS && s in c.sectionBudgets && c.sectionBudgets[s] >= 2
    requires s == Evidence || c.tokenBudget >= 26
    ensures !OnlyRequiredOverflows(c, r, false)
    ensures r == OverlongRequest(s, Available(c.counter, c.tokenBudget, SECTION_NAMES) + c.sectionBudgets[s] - 2)
  {
    hide OnlyRequiredOverflows, DefaultTokenCounter, HeadingTokens, Total, OverlongRequest, SectionInputs, Names, Valid,
         Slack, TotalExcess, TotalUsed, FinalPlan, Covers;
    BudgetFits(c, s);
    var cost: nat := Available(c.counter, c.tokenBudget, SECTION_NAMES) + c.sectionBudgets[s] - 2;
    r := OverlongRequest(s, cost);
    StructuredNames(r);
    ReclaimBoundIsTight(c, false, s, cost);
  }

  /** The compiler was created without section budgets of the caller's. */
  ghost predicate HasDefaultReservations(c: Compiler) {
    Create(c.tokenBudget, c.enabled, c.maxMemoryLines, c.maxEvidenceLines, c.strategy, None, c.counter) == Ok(c)
  }

  /** With the default reservations the comment is right for every request if and only if the token budget is at most
      27: four tokens beside the headings. */
  lemma DefaultLimit(c: Compiler)
    requires HasDefaultReservations(c) && c.counter == DefaultTokenCounter
    ensures Valid(c)
    ensures (forall r :: OnlyRequiredOverflows(c, r, false)) <==> c.tokenBudget <= 27
  {
    CreatedIsValid(c.tokenBudget, c.enabled, c.maxMemoryLines, c.maxEvidenceLines, c.strategy, None, c.counter);
    hide OnlyRequiredOverflows, DefaultTokenCounter, HeadingTokens, Total, OverlongRequest, SectionInputs, Shares, WeightTotal;
    WeightsAddUp();
    AllHeadings();
    assert c.sectionBudgets == DefaultShares(Available(c.counter, c.tokenBudget, SECTION_NAMES));
    var available := Available(c.counter, c.tokenBudget, SECTION_NAMES);
    if c.tokenBudget <= 27 {
      forall r ensures OnlyRequiredOverflows(c, r, false) {
        StructuredNames(r);
        forall s: Section | s != TaskSpec ensures s in c.sectionBudgets && c.sectionBudgets[s] <= 1 {
          SmallDefaultShares(available, s);
        }
        SmallReservationsSuffice(c, r, false);
      }
    } else {
      LargeDefaultShare(available);
      var r := StructuredOvershoots(c, Evidence);
    }
  }

  lemma QueryIsActive(r: Request)
    ensures TaskSpec in Names(r, true)
  {
    hide BuildMemory, BuildEvidence, ActiveNames;
    Listed(TaskSpec);
    ActiveAreListed(SECTION_NAMES, SectionInputs(r), true);
  }

  lemma TightAdaptive(c: Compiler, r: Request)
    requires Valid(c) && c.counter == DefaultTokenCounter && c.tokenBudget <= 7
    ensures OnlyRequiredOverflows(c, r, true)
  {
    hide OnlyRequiredOverflows, DefaultTokenCounter, HeadingTokens, Total, SectionInputs, Shares, WeightTotal, Names, Valid;
    NamesFacts(r, true);
    var names := Names(r, true);
    QueryIsActive(r);
    forall s | s in names && s != TaskSpec ensures s in Reservations(c, r, true) && Reservations(c, r, true)[s] <= 1 {
      TwoHeadings(names, s);
      SmallAdaptiveShares(names, Available(c.counter, c.tokenBudget, names), s);
    }
    SmallReservationsSuffice(c, r, true);
  }

  /** In adaptive mode the comment is right for every request if and only if the token budget is at most 7. */
  lemma AdaptiveLimit(c: Compiler)
    requires Valid(c) && c.counter == DefaultTokenCounter
    ensures (forall r :: OnlyRequiredOverflows(c, r, true)) <==> c.tokenBudget <= 7
  {
    hide OnlyRequiredOverflows, DefaultTokenCounter, HeadingTokens, Total, OverlongRequest, SectionInputs, Shares, WeightTotal, Names, Valid;
    if c.tokenBudget <= 7 {
      forall r ensures OnlyRequiredOverflows(c, r, true) {
        TightAdaptive(c, r);
      }
    } else {
      var available := c.tokenBudget - 5;
      AdaptiveHeadings();
      AdaptiveShare(available);
      var b := Shares([TaskSpec, Evidence], available)[Evidence];
      var cost := available + b - 2;
      AdaptiveNames(cost);
      ReclaimBoundIsTight(c, true, Evidence, cost);
      assert !OnlyRequiredOverflows(c, OverlongRequest(Evidence, cost), true);
    }
  }
}
