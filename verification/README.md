# Verified model of the memory, context and evaluation core

This project models the decision-making core of an incident-response agent in Dafny and proves properties of it.
The modules follow the program's own components:

| modules | component |
|---|---|
| `TokenText`, `Apportionment`, `SectionFit`, `Reclaim`, `FlatContext`, `ContextCompiler`, `ContextGuarantees`, `PacketContents`, `RoomForAll`, `ContextOverflow`, `ContextLimits`, `ContextReservations` | the budgeted context compiler: the mixed-language token estimate and the bisecting splitter, largest-remainder section budgets, the greedy packer, the second pass that lends unused budget, flat trimming, the packet |
| `SubsetSums`, `McNemar`, `Ranks`, `SignedRank`, `SignedRankDuality`, `HodgesLehmann` | the exact statistics of the ablation study: mid-p McNemar, tie-averaged ranks, the counting table over sign assignments, the Hodges-Lehmann estimate, its signed-rank interval and the duality of the two |
| `MemoryStore`, `FactHistory`, `ObservationRules`, `Timeline`, `TimelineRuns`, `SimilarLinks`, `LinkReports`, `Eviction`, `EvictionRules`, `Supersession`, `MutualPairs`, `Consolidation`, `TwoStrikes`, `RunEvidence` | the life cycle of memories: keyed facts with validity intervals, the event timeline, capacity eviction, mutual-nearest-neighbour retirement, access, credit and strike accounting over whole runs |
| `Retrieval`, `Bm25`, `EvidenceText`, `RankFusion`, `HybridRetrieval`, `RetrievalRules`, `TocParser`, `Chunker`, `ChunkTrails`, `OverlapSweep` | typed and time-indexed retrieval, the BM25 index, the words of records and events, reciprocal rank fusion and the hybrid built on it, the table-of-contents stack machine, the section chunker, the overlap sweep |
| `Basics`, `Sorting` | shared vocabulary: options, list filters, set overlap, a stable sort and its uniqueness |

Code that works step by step is a method with the source's loop, or a class whose methods update the source's fields;
each is proved equal to a function on values, and the theorems are about that function. The store of memories is a
class over mutable records; its abstract value is the list of record values in insertion order.

Places where the code does not do what its comments say, each kept as the code has it, with a failing input and the
exact condition:

* The comment above the lending pass says that only required items may overflow the global budget. The pass counts
  the slack of the section it refits twice, so a section without required items can overflow by that slack.
  `Reclaim.ReclaimBound` is the bound that does hold, and `ContextOverflow.ReclaimBoundIsTight` shows on requests with
  one evidence row or one memory that it cannot be improved. For one request the comment is right if no section that
  drops something leaves budget unused (`ContextOverflow.CommentHoldsWithoutSlack`). For all requests it is right if
  and only if the token budget is at most 27 with the default reservations, and at most 7 in adaptive mode
  (`ContextLimits.DefaultLimit`, `ContextLimits.AdaptiveLimit`); with reservations supplied by the caller, over
  requests whose memories form no chain, if and only if evidence and each tier of memories are reserved at most one
  token, where the tiers do not matter up to a token budget of 25 (`ContextReservations.SuppliedLimit`). Apart from
  the per-request condition, which holds for every prefix-monotone counter, all of this is about the default one.
* The same comment calls section weights initial reservations, not hard walls, whose unused part is lent to sections that
  still have content. But a loan is added to the reservation, and where required evidence has used more than that, it
  falls short by the excess, however much room is left. A request that fits the token budget as a whole is
  kept as a whole if and only if its required evidence fits the reservation for evidence or there is no optional evidence
  (`RoomForAll.NothingDroppedIff`, for every prefix-monotone counter; `RoomForAll.CutDespiteRoom` is a request that is cut).
* The retrieval evaluation ranks once and slices, "exact because every retriever returns a stable top-k prefix". The
  hybrid reads its inputs to a depth that grows with the cut-off, so this holds if and only if no cut-off above ten
  is involved (`HybridRetrieval.HybridSlicesExactly`, with records and an event on which it fails in
  `HybridRetrieval.SlicingFails`). The default cut-offs 1, 5 and 10 are safe, and the single-score
  retrievers always are (`Retrieval.RankOnce`).
* The chunker's rule says that no chunk straddles a first or second-level heading. Titles are skipped without a cut, and
  the merge of a short last chunk ignores headings: `Chunker.TitleStraddled`, `Chunker.SectionStraddled`, with the exact
  conditions `Chunker.TitleInsideIffOpen`, `Chunker.MergeInside` and `Chunker.H2InsideIffMerged`.
* A chunk's heading trail is described as the nearest headings at its start. It is the outline of open headings if and only
  if no heading follows one of its own depth or deeper that skipped a level (`ChunkTrails.TrailIsOutlineIffNoGap`): a section that begins with two third-level headings
  keeps both in the trail (`ChunkTrails.GapKeepsHeading`).
* The signed-rank interval is noted as an exact inversion, "zeros removed and ties receive average ranks". It is one
  without ties and zeros (`SignedRankDuality.IntervalInvertsTest`). With them, the differences and the shifted
  differences have different null distributions, and interval and test agree exactly outside the gap between their cuts
  (`SignedRankDuality.InvertsUnlessBetweenCuts`). `SignedRankDuality.ZerosBreakInversion` is a family in the gap without a
  reported interval, `SignedRankDuality.OneZeroBreaksInversion` a sample in it with one.
* The utility used by eviction is described as lying between zero and one, which holds exactly for nonnegative weights
  with a sum of at most one (`Eviction.UtilityInRange`).
* The lexical query is built from the event's entities, so that a record on one of them shares a word with it
  (`EvidenceText.MatchedEntityIsShared`); not so for country codes that are stop words, such as IN
  (`EvidenceText.StopWordCountry`).

One guard never acts: the cap on the mid-p value, since the value is at most one by itself
(`McNemar.MidPIsProbability`).

Two facts the source leaves implicit are stated as hypotheses where they are needed. Budget bounds ask for a counter
under which a prefix never costs more than the whole; the default counter is one
(`TokenText.DefaultIsPrefixMonotone`). Blocks given to the chunker carry no white space at either end and are not
empty, which is how the page parser delivers them (core/eval/fortios_corpus.py:195-201).

## Model

| member | source | states |
|---|---|---|
| `TokenText.CountOfPrefix` | core/context/compiler.py:617-626 | The default estimate is prefix-monotone and one more character adds at most one token. |
| `TokenText.DefaultIsPrefixMonotone` | core/context/compiler.py:617-626 | For every text and every cut, the estimate of the prefix is at most the estimate of the text: the hypothesis every budget theorem needs holds of the default counter. |
| `TokenText.PiecesAreStarts` | core/context/compiler.py:40 | The number of leftmost-longest matches of the token pattern is the number of positions where a piece begins, an independent reading of the pattern. |
| `TokenText.CountAcrossSeam` | core/context/compiler.py:617-626 | The estimate is additive wherever no run of one class is merged across the seam. |
| `TokenText.CountOfJoin` | core/context/compiler.py:305 | Joining lines with any white-space character costs nothing: the estimate of the joined text is the sum of the estimates of the lines. |
| `TokenText.RStrip` | core/context/compiler.py:614 | What is stripped at the end is all white space, and what stays does not end in any. |
| `TokenText.LStrip` | core/context/compiler.py:614 | What is stripped at the front is all white space, and what stays does not begin with any. |
| `TokenText.RFindBlank` | core/context/compiler.py:611 | The last blank before a position, or -1 when there is none. |
| `TokenText.Retreat` | core/context/compiler.py:608-613 | Falling back to a word boundary never moves the cut forward and never erases the whole prefix. |
| `TokenText.SplitToTokenBudget` | core/context/compiler.py:594-614 | The bisecting loop, for any counter whatever, computes the split whose properties the following lemmas state. |
| `TokenText.LongestPrefix` | core/context/compiler.py:601-607 | For any prefix-monotone counter the bisection finds the longest prefix within budget: a prefix fits if and only if it is no longer than the one found. |
| `TokenText.LongestPrefixFills` | core/context/compiler.py:601-607 | With the default counter a text that is too long is cut where the prefix uses the budget exactly. |
| `TokenText.SplitHeadFits` | core/context/compiler.py:594-614 | The returned head never exceeds the budget, after the retreat to a word boundary and the strip. |
| `TokenText.SplitKeepsText` | core/context/compiler.py:594-614 | For any counter, text = head + gap + tail where the gap is white space only. |
| `TokenText.SplitTokensConserved` | core/context/compiler.py:594-614 | Head and tail together cost what the text did, or one token more when the cut breaks a run in two. |
| `TokenText.SplitsAtBlank` | core/context/compiler.py:594-614 | An overlong text is cut where its longest fitting prefix ends, one more character being too much; or, if that prefix ends in an ASCII character and has a blank behind its first character, at the last such blank. |
| `Apportionment.Apportion` | core/context/compiler.py:224-239 | The largest-remainder loop computes the shares described by the next four rows, in default structured mode and in adaptive mode. |
| `Apportionment.SharesAddUp` | core/context/compiler.py:26-29 | For every nonempty set of sections and every budget the shares add up to the available tokens exactly. |
| `Apportionment.SharesAreRounded` | core/context/compiler.py:507-513 | Each share is the floor of its exact quota or one more, and an exact quota is left alone. |
| `Apportionment.SharesAreFair` | core/context/compiler.py:510-512 | No section is rounded up ahead of one with a larger fractional part; among equal parts the earlier section goes first. |
| `Apportionment.RoundingFacts` | core/context/compiler.py:230-239 | The number of tokens to hand out is less than the number of sections, so slicing the order loses none, and every section that is rounded up has a nonzero fraction. |
| `Apportionment.WeightsAddUp` | core/context/compiler.py:29-38 | The published section weights add up to one. |
| `SectionFit.FitSection` | core/context/compiler.py:521-565 | The packing loop computes the kept and dropped lists described by the next rows. |
| `SectionFit.UsedIsCost` | core/context/compiler.py:528-565 | The running total always equals the cost of what has been kept, truncated heads included. |
| `SectionFit.RequiredItemsKept` | core/context/compiler.py:529-534 | Required items are kept whole and in order, whatever the budget; none is truncated or dropped. |
| `SectionFit.FitWithinBudget` | core/context/compiler.py:521-565 | With required items first, a section uses at least the cost of its required items and at most the larger of that cost and its budget. |
| `SectionFit.EveryItemAccounted` | core/context/compiler.py:538-564 | Every input item is kept, dropped, or split into a kept head and a dropped tail that differ from the original by white space at the cut only. |
| `SectionFit.FitInvents` | core/context/compiler.py:542-561 | Nothing kept or dropped is invented: sequence, kind, id and required flag come from an input item. |
| `SectionFit.AllIfItFits` | core/context/compiler.py:528-534 | A section whose items fit its budget together keeps them all. |
| `SectionFit.FirstItemsKept` | core/context/compiler.py:528-534 | Packing goes in order: the longest run of first items that fits is kept, whole and in front. |
| `SectionFit.NothingMoreFits` | core/context/compiler.py:529-561 | Nothing is left out that there was room for: an optional item that is not kept whole costs more than what is left of the budget. |
| `Reclaim.FitEach` | core/context/compiler.py:242-243 | The first pass over the sections as a map from names to fits. |
| `Reclaim.LendTo` | core/context/compiler.py:267-280 | One turn of the lending loop, by the sums it computes. |
| `Reclaim.FitSections` | core/context/compiler.py:242-280 | Both passes, with the early exit of the lending loop, compute the plan the bounds below are about. |
| `Reclaim.Exhausted` | core/context/compiler.py:265-266 | Leaving the loop once nothing is left to lend is safe: the remaining sections would change nothing. |
| `Reclaim.LoanSize` | core/context/compiler.py:277-280 | A loan changes one section and grows it by at most what was left to lend plus the slack that section had after the first pass. |
| `Reclaim.LendStep` | core/context/compiler.py:262-280 | The invariant of the lending loop: total plus reclaimable stays within reach, or the total overshoots by at most the borrower's own slack and nothing is left to lend. |
| `Reclaim.FirstPassBound` | core/context/compiler.py:242-250 | The first pass exceeds the sum of its reservations only by what required items cost beyond their own section's reservation. |
| `Reclaim.ReclaimBound` | core/context/compiler.py:242-280 | For every prefix-monotone counter: total kept tokens exceed the available content by at most the required excess, or else nothing is left to lend and the last section that borrowed, which dropped something in the first pass and then kept more than it was lent, accounts for the rest by its own first-pass slack. |
| `Reclaim.NoSlackNoOvershoot` | core/context/compiler.py:213-217 | If no section that drops something in the first pass leaves budget unused, the overflow comes from required items only, which is what the comment promises in general. |
| `RoomForAll.DropsNothingIff` | core/context/compiler.py:521-565 | A section drops nothing if and only if its budget covers all its items or all of them are required. |
| `RoomForAll.EverySectionServed` | core/context/compiler.py:213-217 | If all items together fit the available tokens, lending gives every section exactly what the first pass left it missing. |
| `RoomForAll.NothingDroppedIff` | core/context/compiler.py:213-217 | A request that fits the token budget as a whole is kept as a whole if and only if it has no optional evidence, or its required evidence does not exceed the reservation for evidence: loans are added to a reservation that the required rows have already overdrawn. |
| `RoomForAll.CutDespiteRoom` | core/context/compiler.py:274-278 | Where that fails: with nothing reserved and 200 tokens, two rows of evidence of at most eight tokens each, one of them required, and the optional one is cut. |
| `RoomForAll.LentByRank` | core/context/compiler.py:252-266 | Lending goes by a fixed rank, evidence first and the query last: no section is lent anything before one of higher rank that misses something has been lent something. |
| `RoomForAll.HighestRankIsLent` | core/context/compiler.py:274-280 | The first section by rank to miss something is lent all of it, or all that the first pass left. |
| `ContextOverflow.CommentHoldsWithoutSlack` | core/context/compiler.py:213-217 | Per request, checkable on the first pass of a compilation, for every prefix-monotone counter: if no section that drops something leaves budget unused, only required items overflow. |
| `ContextOverflow.LinesVisible` | core/context/compiler.py:406-488 | Apart from the query, every line the compiler builds, for any request, begins with a visible character. |
| `ContextOverflow.SomethingIsKept` | core/context/compiler.py:521-565 | A section with such lines and a positive budget uses at least one token. |
| `ContextOverflow.SmallReservationsSuffice` | core/context/compiler.py:213-217 | For a request under which no section with content but the query's is reserved more than one token, only required items overflow, in both modes. |
| `ContextOverflow.CutBack` | core/context/compiler.py:594-614 | A line whose first word is one token, followed by a long text without blanks, is cut back to that word at any small budget, so all but one token of the budget is left unused. |
| `ContextOverflow.Refill` | core/context/compiler.py:594-614 | With as many tokens as the word and the text cost, exactly these are kept. |
| `ContextOverflow.ReclaimBoundIsTight` | core/context/compiler.py:213-217 | The comment is not true in general: in every compiler that reserves two tokens or more for evidence, or for the memories of a tier when there are three to share, a request with an empty query and one optional line overshoots the available tokens by exactly the slack of its section; so the bound above cannot be improved. |
| `ContextLimits.AllHeadings` | core/context/compiler.py:491 | All eight headings together cost 23 tokens. |
| `ContextLimits.CreatedIff` | core/context/compiler.py:107-130 | A compiler is made if and only if its limits are positive and the supplied budgets name all eight sections, none negative, and fit beside the headings; they are then its reservations. Each error says which of these fails. |
| `ContextLimits.HundredsAreShared` | core/context/compiler.py:29-38 | The weights: every hundred tokens of content are shared out as 4, 16, 10, 10, 5, 35, 10 and 10. |
| `ContextLimits.SmallDefaultShares` | core/context/compiler.py:490-513 | Up to four tokens of content, the default reservation of every section but the query's is at most one token. |
| `ContextLimits.SmallAdaptiveShares` | core/context/compiler.py:224-239 | Up to two tokens of content, so is every adaptive reservation, whatever sections are active. |
| `ContextLimits.DefaultLimit` | core/context/compiler.py:213-217 | The exact condition in structured mode with default reservations: over all requests, only required items overflow if and only if the token budget is at most 27. |
| `ContextLimits.AdaptiveLimit` | core/context/compiler.py:213-217 | The exact condition in adaptive mode: over all requests, if and only if the token budget is at most 7. |
| `ContextReservations.SuppliedLimit` | core/context/compiler.py:213-217 | The exact condition for any supplied reservations: over all requests whose memories form no evolution chain, only required items overflow if and only if evidence is reserved at most one token and, unless the token budget is at most 25, each tier of memories too. |
| `ContextReservations.TwoTokensSuffice` | core/context/compiler.py:242-280 | The corner of that condition: with two tokens of content, both reserved for one tier, no request without a chain overshoots. |
| `ContextReservations.StaysShort` | core/context/compiler.py:521-565 | Why: a section of memories that uses one of two tokens uses one of three. |
| `FlatContext.LastRemovable` | core/context/compiler.py:629-633 | The last optional item after the query, or none; everything behind it is required. |
| `FlatContext.SelectItems` | core/context/compiler.py:327-348 | The capping and trimming loop, with and without limits, computes the selection and the drop reasons. |
| `FlatContext.TrimKeepsLongestPrefix` | core/context/compiler.py:343-348 | Trimming ends with the query, all required items and the longest prefix of the optional ones that fits the budget (no longer prefix fits), or with no optional item at all. |
| `FlatContext.EveryDropHasItsReason` | core/context/compiler.py:327-351 | An item has a drop reason if and only if it is not kept: the line cap if it was cut before trimming, the token budget if it was trimmed. |
| `ContextCompiler.CreatedIsValid` | core/context/compiler.py:107-130 | However the section budgets were obtained, they are nonnegative and fit beside the headings; the default ones use up everything that is left, and are refused only for a token budget or a line cap below one. |
| `ContextCompiler.NamesFacts` | core/context/compiler.py:208-211 | The active sections are distinct and never none, so the adaptive weights never divide by zero; supplied evidence keeps its section active. |
| `ContextCompiler.ReservationsFit` | core/context/compiler.py:219-246 | In both modes the reservations cover the active sections and add up to no more than the content available to them. |
| `ContextCompiler.Assemble` | core/context/compiler.py:282-303 | The loop that assembles kept items, summary lines and section reports. |
| `ContextCompiler.CompileStructured` | core/context/compiler.py:183-314 | Structured and adaptive compilation produce the packet whose guarantees are stated below. |
| `ContextCompiler.CompileFlat` | core/context/compiler.py:316-371 | Flat and disabled compilation produce the packet whose guarantees are stated below. |
| `ContextCompiler.Compile` | core/context/compiler.py:132-181 | Dispatch over the modes, and the error for evidence without an id. |
| `ContextGuarantees.EvidenceRequiredFirst` | core/context/compiler.py:473-476 | Required evidence precedes all optional evidence. |
| `ContextGuarantees.EvidenceItemsMatch` | core/context/compiler.py:472-487 | An id was supplied if and only if some evidence item carries it, and an evidence item is required if and only if its id was asked for. |
| `ContextGuarantees.ItemsAreNumbered` | core/context/compiler.py:412-487 | No two items of a request share a sequence number, on which the bookkeeping of drops relies. |
| `ContextGuarantees.RequiredEvidenceSurvives` | core/context/compiler.py:142-146 | In disabled, flat, structured and adaptive mode, for every counter and all budgets: a required id is included if and only if it was supplied, and the missing list is exactly the required ids that were not; compilation fails if and only if some evidence has no id. |
| `ContextGuarantees.PacketReports` | core/context/compiler.py:385-392 | Whenever all supplied required evidence was kept, the packet's included and missing lists say so exactly. |
| `ContextGuarantees.FlatShape` | core/context/compiler.py:327-348 | A flat selection is the query, the required items and the longest fitting prefix of the capped optional items. |
| `ContextGuarantees.FlatFitsBudget` | core/context/compiler.py:343-353 | With the default counter the flat summary, joined by newlines instead of blanks, fits the token budget unless only the query and required items are left. |
| `ContextGuarantees.FlatDropsExplained` | core/context/compiler.py:351-361 | Looking up the reason of a dropped item never fails. |
| `ContextGuarantees.SummaryTokens` | core/context/compiler.py:282-305 | With the default counter a structured summary costs exactly its headings plus what its sections keep. |
| `ContextGuarantees.StructuredFitsBudget` | core/context/compiler.py:183-314 | End to end: the summary of a structured or adaptive packet exceeds the token budget (or its headings, if they alone are larger) by at most the required excess, or by the first-pass slack of the last section that borrowed, once nothing is left to lend. |
| `ContextGuarantees.FinalFits` | core/context/compiler.py:242-280 | After all loans every section of a packet is still the fit of its own inputs to its own final budget. |
| `ContextGuarantees.NothingLostSilently` | core/context/compiler.py:285-303 | In a structured packet every input of a section is kept, dropped, or split with only white space lost. |
| `PacketContents.EveryItemReported` | core/context/compiler.py:187-207 | In every structured or adaptive packet each item of the request stands, kept or dropped or in two halves, in exactly one report: the query in Task Spec, asset profiles in Assets, procedures in Workflow, evidence in Evidence, semantic memories in Learnings, episodic ones in Key Results, the evolution chain in Current State. |
| `PacketContents.EveryMemoryIsListed` | core/context/compiler.py:406-448 | Every supplied memory becomes an item with its id and its line, tier after tier, numbered from one in the order supplied. |
| `PacketContents.QueryChainAndEvidence` | core/context/compiler.py:450-487 | The query is item zero, the chain follows the memories, and the evidence follows both, required rows first and otherwise by id, each row with its id, its source and its summary. |
| `PacketContents.MemoryText` | core/context/compiler.py:444 | A memory line is its tier, its timeline in brackets if it has one, and its content. |
| `PacketContents.PacketFollowsReports` | core/context/compiler.py:303-314 | The summary is the reports' headings and kept lines in order; the token counts are the counter's, of the summary and of all lines joined by blanks; and the included ids are those of the kept memories and of the kept evidence. |
| `PacketContents.ReportCounts` | core/context/compiler.py:289-302 | A report counts what its kept entries cost and by how much that exceeds its budget, and gives every dropped entry the section budget as reason. |
| `PacketContents.ReportIsFit` | core/context/compiler.py:285-302 | Report n is about the n-th active section: its entries are that section's final fit, its budget the final one, its first count the cost of all that is for the section. |
| `PacketContents.ModeIsConfigured` | core/context/compiler.py:154-181 | The packet says disabled, flat, structured or adaptive as configured; flat ones have one report, structured ones all eight. |
| `PacketContents.FlatReportIs` | core/context/compiler.py:316-371 | A flat or disabled packet has one report, which divides the request's items, whole, into kept and dropped ones; the summary, the counts and the overflow follow from it, and without limits everything is kept. |
| `SubsetSums.AddStep` | core/eval/memory_ablation.py:849-854 | One pass over the dictionary adds to each total the count found one step below it. |
| `SubsetSums.SubsetSumDistribution` | core/eval/memory_ablation.py:846-855 | The counting loop maps every reachable score, and no other, to the number of sign assignments whose positive ranks sum to it. |
| `SubsetSums.HitsSplit` | core/eval/memory_ablation.py:852-853 | The assignments for one more rank are those that leave it out and those that take it in, without overlap. |
| `SubsetSums.SignsCount` | core/eval/memory_ablation.py:885 | There are 2^n sign assignments. |
| `SubsetSums.DistributionTotal` | core/eval/memory_ablation.py:885 | The counts of all scores add up to 2^n. |
| `SubsetSums.HitsMirror` | core/eval/memory_ablation.py:846-855 | The distribution is symmetric about half the rank total. |
| `SubsetSums.TailsMirror` | core/eval/memory_ablation.py:887-888 | Flipping every sign exchanges the lower and the upper tail. |
| `SubsetSums.CountRangeCounts` | core/eval/memory_ablation.py:887-888 | Summing dictionary counts over a range of scores counts the assignments in that range. |
| `McNemar.MidPIsProbability` | core/eval/memory_ablation.py:788-799 | For all discordant counts the value is symmetric, positive and at most one before the cap, equal to one if and only if the counts agree; so the cap never acts. |
| `McNemar.MidPGrows` | core/eval/memory_ablation.py:796-798 | With the number of discordant pairs fixed, a less lopsided split has a strictly larger value. |
| `McNemar.NumeratorBounds` | core/eval/memory_ablation.py:797-798 | Twice the strict lower tail plus the middle coefficient stays in (0, 2^n] and reaches 2^n exactly in the middle. |
| `McNemar.MidPCountsSplits` | core/eval/memory_ablation.py:789 | The value read as a probability over all 2^n splits of the discordant pairs: twice the chance of a smaller minority plus the chance of this one. |
| `McNemar.CombCounts` | core/eval/memory_ablation.py:784-785 | The binomial coefficient counts the outcomes with k on one side. |
| `Ranks.FillBand` | core/eval/memory_ablation.py:840-841 | Writing one band of ties changes the ranks of that band and of nobody else. |
| `Ranks.AverageRanks` | core/eval/memory_ablation.py:831-843 | Each value gets the mean of the places its ties occupy: twice its rank is one plus twice the number of smaller values plus the number of equal ones. |
| `Ranks.BandRank` | core/eval/memory_ablation.py:836-839 | A maximal run of equal values in sorted order has the averaged rank the loop computes from its two ends. |
| `Ranks.RankTotal` | core/eval/memory_ablation.py:846-850 | Averaging ties keeps the rank total: doubled ranks of n values add up to n(n+1). |
| `SignedRank.Critical` | core/eval/memory_ablation.py:891-899 | The cumulative loop with its early exit finds the largest reachable score whose lower tail holds at most 2.5 percent of all assignments, or none if there is no such score. |
| `SignedRank.Doubled` | core/eval/memory_ablation.py:850 | Doubling the averaged ranks gives integers, exactly. |
| `SignedRank.HodgesLehmannWilcoxon` | core/eval/memory_ablation.py:858-915 | The whole computation meets an independent description: median of the sorted pairwise averages, two-sided tail probability over all sign assignments, interval cut at the critical score. |
| `SignedRank.ReportUnique` | core/eval/memory_ablation.py:858-915 | That description fixes the report: two reports that meet it are equal. |
| `SignedRank.TailIsBelowMiddle` | core/eval/memory_ablation.py:895-899 | A score in the 2.5 percent tail lies strictly below half the rank total. |
| `SignedRank.IntervalContainsEstimate` | core/eval/memory_ablation.py:900-906 | Whenever an interval is reported, its lower end is at most the estimate and the estimate at most its upper end, for all differences with ties and zeros. |
| `SignedRank.ReportedPValueInRange` | core/eval/memory_ablation.py:887-889 | The two-sided p-value of any nonempty sample is positive and at most one. |
| `SignedRank.NegationMirrors` | core/eval/memory_ablation.py:858-915 | Negating every difference leaves the p-value and the sample size alone and mirrors the estimate and the interval. |
| `HodgesLehmann.EstimateIsMiddle` | core/eval/memory_ablation.py:870-871 | The estimate, by counting over the unsorted averages: it lies half way between the value in the lower middle place and the value in the upper middle place. |
| `HodgesLehmann.HalfOnEachSide` | core/eval/memory_ablation.py:870-871 | At least half of the pairwise averages are at most the estimate, and at least half at least. |
| `HodgesLehmann.EstimateShifts` | core/eval/memory_ablation.py:870-871 | Shifting every difference shifts the estimate by exactly as much. |
| `HodgesLehmann.ZerosAreNoException` | core/eval/memory_ablation.py:873-880 | The early answer for a sample without nonzero differences is what the general computation would give. |
| `HodgesLehmann.EffectiveSample` | core/eval/memory_ablation.py:872-881 | The reported sample size is the number of differences less the number of zeros. |
| `SubsetSums.HitsPermute` | core/eval/memory_ablation.py:846-855 | The number of assignments that reach a score does not depend on the order of the ranks. |
| `SubsetSums.TailPermutes` | core/eval/memory_ablation.py:887-888 | Nor does the size of a tail. |
| `SignedRankDuality.SignedSumIsPairs` | core/eval/memory_ablation.py:882-886 | When no two differences cancel, ties included, the doubled ranks of the positive differences add up to twice the number of pairs i <= j with a positive sum. |
| `SignedRankDuality.WalshAbove` | core/eval/memory_ablation.py:870 | The pairs of shifted differences with a positive sum are the pairwise averages above the shift. |
| `SignedRankDuality.CoversByAverages` | core/eval/memory_ablation.py:900-906 | The interval holds a shift if and only if more averages than its cut index lie on either side of the shift. |
| `SignedRankDuality.AcceptedByAverages` | core/eval/memory_ablation.py:886-889 | The test of the shifted differences stays above five percent if and only if more averages than the cut of their own distribution lie on either side. |
| `SignedRankDuality.UntiedRanks` | core/eval/memory_ablation.py:831-843 | The doubled ranks of n different magnitudes are 2, 4, ..., 2n in some order. |
| `SignedRankDuality.IntervalInvertsTest` | core/eval/memory_ablation.py:901 | The exact inversion the note claims: without ties and zeros, a shift that is no pairwise average lies in the interval if and only if the shifted differences are not rejected at five percent. |
| `SignedRankDuality.InvertsUnlessBetweenCuts` | core/eval/memory_ablation.py:901 | With any ties and zeros: interval and test agree on such a shift if and only if the smaller number of averages on one side does not fall between the cuts of the two distributions. |
| `SignedRankDuality.AllZerosInvert` | core/eval/memory_ablation.py:873-880 | With no nonzero difference the point interval excludes every other shift, and the test rejects them if and only if there are six differences or more. |
| `SignedRankDuality.ZerosBreakInversion` | core/eval/memory_ablation.py:901 | The claim fails with zeros: of six or more differences with one to five nonzero, no shift is excluded, yet the test rejects every shift beyond them all. |
| `SignedRankDuality.ZerosBreakInversionHere` | core/eval/memory_ablation.py:901 | The concrete input: five zeros and a one, against a shift of minus one. |
| `SignedRankDuality.SmallTails` | core/eval/memory_ablation.py:891-899 | The lower tail of three or more untied ranks: the doubled scores 0, 2 and 4 once each, 6 twice. |
| `SignedRankDuality.OneZeroBreaksInversion` | core/eval/memory_ablation.py:901 | One zero is enough, and with an interval reported: for -4, -3, 0, 1, 2, 5, 6, 7 the interval holds -2.5, and the test of the differences shifted by it rejects. |
| `MemoryStore.IndexOf` | core/memory/store.py:606-608 | Position of the record with an id, or -1 when there is none. |
| `MemoryStore.Store.constructor` | core/memory/store.py:376-410 | A new store is valid and empty. |
| `MemoryStore.Store.Get` | core/memory/store.py:606-608 | Looks a record up by id, quarantined ones included. |
| `MemoryStore.Store.Add` | core/memory/store.py:597-604 | Appends one record, or reports a duplicate id and leaves the store alone; ids stay unique. |
| `MemoryStore.Store.QuarantineAt` | core/memory/store.py:618-624 | Sets the flag and appends the reason tag of one record, and changes nothing else. |
| `FactHistory.FindCurrent` | core/evolve/memory_ops.py:146-153 | The last active record of the key that is valid at the instant, or none. |
| `FactHistory.ObserveFact` | core/evolve/memory_ops.py:129-202 | Observing a fact takes the store to its successor state; a failed add leaves the store as it was; the returned id is a current record carrying the value. |
| `FactHistory.EpisodesContiguous` | core/evolve/memory_ops.py:139-144 | The run-length history of a chronological log is contiguous, ends in one open interval, and no neighbours carry the same value. |
| `FactHistory.EpisodesAnswer` | core/evolve/memory_ops.py:112-115 | From the first observation on exactly one episode holds at an instant, and its value is the last one observed by then. |
| `FactHistory.ObserveSameKey` | core/evolve/memory_ops.py:155-202 | One observation of a key extends the stored history exactly as it extends the history of the log. |
| `FactHistory.ObserveOtherKey` | core/evolve/memory_ops.py:103-109 | An observation of one key leaves the stored facts of every other key unchanged. |
| `FactHistory.StoreRefinesLog` | core/evolve/memory_ops.py:129-202 | Over every run of observations, interleaved over any keys, whose times do not go backwards per key, the stored facts of a key are the run-length history of its log. |
| `FactHistory.FactAtInstant` | core/evolve/memory_ops.py:112-115 | Historical query: exactly one stored fact of the key is valid at any instant from the first observation on, and it carries the value last observed by then. |
| `FactHistory.FactIntervals` | core/evolve/memory_ops.py:139-144 | The stored validity intervals are contiguous and half-open, the last one is open, neighbours differ, and nothing is valid before the first observation. |
| `ObservationRules.SameValueConfirms` | core/evolve/memory_ops.py:155-168 | Observing the value that the last answering record already has changes nothing but the time of its last confirmation, which never goes back. The answering record is read off the fields: live, ready, tagged with subject and relation, valid at the instant. |
| `ObservationRules.OtherValueReplaces` | core/evolve/memory_ops.py:169-202 | Observing another value ends the answering record, if there is one, at that instant and appends the new fact with all its fields; if the new id is taken, nothing happens. |
| `Timeline.AddEdge` | core/evolve/memory_ops.py:272-291 | One link and one typed edge are added to one record, each at most once. |
| `Timeline.ConnectRecords` | core/evolve/memory_ops.py:498-513 | A pair of records gets dual links and dual relations. |
| `Timeline.LatestOlder` | core/evolve/memory_ops.py:476-490 | The latest of the earlier events on a shared asset, if any. |
| `Timeline.EarliestNewer` | core/evolve/memory_ops.py:481-494 | The earliest of the later events on a shared asset, if any. |
| `Timeline.LinkTemporalRecords` | core/evolve/memory_ops.py:466-513 | The chronological half of linking, with update in place, and the ids it reports. |
| `Timeline.LinkSimilarRecord` | core/evolve/memory_ops.py:545-567 | One associative pair: dual links, dual similarity edges, and the temporal order where both events prove one. |
| `Timeline.LinkRelatedRecords` | core/evolve/memory_ops.py:444-573 | The whole link pass over the store computes the view the run theorems below are about, and returns the linked ids. |
| `Timeline.ReportedAreLinked` | core/evolve/memory_ops.py:444-450 | The returned ids are distinct, and the record links to each of them afterwards. |
| `Timeline.OverlapIsShare` | core/evolve/memory_ops.py:250-256 | Before rounding, the similarity is a symmetric share, one exactly for records with the same content tags and the same assets, some of each. |
| `Timeline.FamilySimilarityIsShare` | core/evolve/memory_ops.py:250-256 | Rounded to four decimals, halves to even, it stays a symmetric share within half a unit of the last decimal, and is one exactly from 0.99995 on. |
| `Timeline.RoundedIsNearest` | core/evolve/memory_ops.py:256 | The rounding gives a nearest integer, and the even one where two are equally near. |
| `Timeline.OverlapWeights` | core/evolve/memory_ops.py:250-256 | Tags weigh three fifths and assets two: with the tags equal and no asset shared the overlap is 0.6, the other way round 0.4. |
| `Timeline.ContentTags` | core/evolve/memory_ops.py:235-248 | A tag counts, in its folded case, unless it is insight or begins with skill:, root: or quarantine:. |
| `SimilarLinks.FamilyIgnoresEdges` | core/evolve/memory_ops.py:250-256 | The measure in use looks at tags and assets only, as the following rows ask. |
| `SimilarLinks.MostSimilarAreLinked` | core/evolve/memory_ops.py:535-570 | By edges and similarity alone: a pass on a record without similarity edges gives it one to exactly min(k, n) of the n other live records at or above the threshold; no record left out is more similar than one linked, and among equals the earlier inserted goes first. |
| `SimilarLinks.SimilarityIsMutual` | core/evolve/memory_ops.py:545-567 | Each linked record gains the edge back, and two events of a shared asset at different times are joined in the order of their times. |
| `SimilarLinks.SimilarityIsWeight` | core/evolve/memory_ops.py:551-552 | The new edges carry the similarity as their confidence. |
| `SimilarLinks.OnlyNeighboursJoined` | core/evolve/memory_ops.py:466-513 | The chronological half adds precedes edges only between the record and the event right before or right after it among the live events that share an asset with it, of events at one time the first inserted. |
| `LinkReports.ReportIs` | core/evolve/memory_ops.py:514-573 | A pass reports the event right before, then the event right after, then the similar records it linked, and no others. |
| `LinkReports.ReportDescends` | core/evolve/memory_ops.py:543-571 | Behind the neighbours in time the reported records come the most similar first, the earlier inserted first among equals. |
| `LinkReports.LinksAreAppended` | core/evolve/memory_ops.py:498-506 | Links are only ever added, and at the end of a record's list. |
| `LinkReports.OrderIsCertain` | core/evolve/memory_ops.py:502-513 | Every precedes and follows edge that a pass adds has full confidence. |
| `TimelineRuns.ConnectSound` | core/evolve/memory_ops.py:502-513 | Connecting two events in time order, or two similar records, keeps the timeline sound. |
| `TimelineRuns.LinkRelatedSound` | core/evolve/memory_ops.py:444-573 | A link pass keeps the timeline sound and removes no edge. |
| `TimelineRuns.TimelineIsSound` | core/evolve/memory_ops.py:452-463 | Over every sequence of adds and link passes, in any order: ids are unique, every precedes edge goes strictly forward in time and has its follows dual, and no edge dangles. |
| `TimelineRuns.PathsGoForward` | core/evolve/memory_ops.py:455-458 | Times strictly rise along every path of precedes edges, so the relation has no cycle. |
| `TimelineRuns.LinkJoins` | core/evolve/memory_ops.py:476-513 | In any store, a link pass on either of two consecutive events joins them: each is the strictly nearest one among the events comparable to the other. |
| `TimelineRuns.TimelineIsComplete` | core/evolve/memory_ops.py:454-458 | Over every sequence of adds and link passes, whatever other records it contains: two consecutive events are joined by dual precedes and follows edges once the later added of them has been linked. |
| `TimelineRuns.AssetTimelineIsComplete` | core/evolve/memory_ops.py:454-458 | In particular, linked live events of one asset with distinct times form one chain: every time-adjacent pair is joined. |
| `Eviction.Peak` | core/evolve/memory_ops.py:735-742 | The normaliser of a signal: nonnegative and at least the signal of every evictable record. |
| `Eviction.UtilityInRange` | core/evolve/memory_ops.py:726-751 | The utility lies between zero and one, for every evictable record of every store, if and only if the weights are nonnegative and add up to at most one; the default ones do. |
| `Eviction.UtilityEvict` | core/evolve/memory_ops.py:754-789 | The eviction loop refuses a negative budget, otherwise quarantines the victims in order and returns their ids. |
| `Eviction.VictimFacts` | core/evolve/memory_ops.py:775-781 | Victims are active, unprotected, distinct, as many as the budget demands, and rank at or below everyone spared by utility, then strength; among equal keys, within the victims and against the spared, the earlier inserted goes first. |
| `Sorting.SortIsStable` | core/evolve/memory_ops.py:776-777 | The sort keeps tied elements in their input order. |
| `Eviction.EvictionMeetsBudget` | core/evolve/memory_ops.py:762-769 | When the active count exceeds the budget, exactly the larger of the budget and the number of protected records stay active; protected and surviving records are untouched; every evicted record ranks at or below every spared one. |
| `Eviction.EvictionIsIdempotent` | core/evolve/memory_ops.py:762-769 | A second call with the same budget changes nothing. |
| `EvictionRules.UtilityIs` | core/evolve/memory_ops.py:720-755 | The utility by definition: importance and strength, no less than zero, the number of accesses and the number of links, each as a part of the largest among the records that may go, weighed and added. |
| `EvictionRules.EvictionIs` | core/evolve/memory_ops.py:758-789 | By fields alone: at or below the budget nothing happens; above it max(budget, number of protected live records) stay live, a record that goes is only marked and tagged, and whoever goes has a lower utility than whoever may go and stays, or the same and a lower strength, or the same and was inserted earlier. |
| `Basics.JaccardIsShare` | core/eval/longmemeval_memevo.py:61-62 | The similarity is symmetric, lies between zero and one, and is one exactly for equal nonempty sets. |
| `Supersession.NearestFacts` | core/eval/longmemeval_memevo.py:174-181 | The nested loop finds the first session of greatest similarity: later ones are no closer, earlier ones strictly less close. |
| `Supersession.FindNearest` | core/eval/longmemeval_memevo.py:173-182 | Fills the nearest-neighbour table for every session. |
| `Supersession.IngestVisitsAll` | core/eval/longmemeval_memevo.py:183 | Sorting by date visits every session exactly once. |
| `Supersession.Supersede` | core/evolve/memory_ops.py:351-360 | Retiring a record in place: provenance link, successor id, quarantine; a missing or already retired prior changes nothing. |
| `Supersession.SupersedeBy` | core/evolve/memory_ops.py:337-365 | The whole operation by ids: a candidate that is not in the store is added at full strength first. |
| `Supersession.SupersessionIsRecorded` | core/evolve/memory_ops.py:346-350 | Afterwards the candidate is in the store, as live as it was unless it is the prior itself, linked to the prior; a live prior is retired and names it; a retired one is left as it was; with a missing one nothing but the addition happens. |
| `Supersession.SupersessionEffect` | core/evolve/memory_ops.py:206-232 | The whole effect of superseding a live record by another: it is retired, tagged and names its successor; the successor, at full strength if it is new, gains one link; every other record stays as it was. |
| `Supersession.TakeTurn` | core/eval/longmemeval_memevo.py:186-194 | One session's turn of the retirement loop. |
| `Supersession.ApplySupersede` | core/eval/longmemeval_memevo.py:163-195 | The whole pass over a store computes the result the matching theorem is about. |
| `Supersession.PairsAreDisjoint` | core/eval/longmemeval_memevo.py:188-189 | A session that fires shares its partner with no other, and its partner never fires. |
| `Supersession.SupersessionIsMatching` | core/eval/longmemeval_memevo.py:163-195 | For all live sessions visited in any order whatever: the count equals the number of mutual pairs at or above tau with different dates, each such pair retires its older record, and nothing else changes. |
| `Supersession.RetiredByNewerPartner` | core/eval/longmemeval_memevo.py:164-167 | A session is retired if and only if its partner fires at it; the partner is then strictly newer, stays live, is named as successor and links back. |
| `MutualPairs.ReplacingIsMatching` | core/eval/longmemeval_memevo.py:186-189 | Replacing, written out over terms and dates, is one to one, and nobody both replaces and is replaced. |
| `MutualPairs.FiringIsReplacing` | core/eval/longmemeval_memevo.py:186-189 | The pass's test is that relation: strictly older, overlap at or above tau, each the first among the sessions most similar to the other. |
| `MutualPairs.PairsDecide` | core/eval/longmemeval_memevo.py:163-195 | Over sessions that are all live, in any order of visits: a session is retired if and only if another replaces it, which it then names and which stays live and links to it; the number returned is the number of such pairs. |
| `MutualPairs.OthersAreLeft` | core/eval/longmemeval_memevo.py:163-195 | Records of sessions that neither replace nor are replaced, and all other records, stay as they were. |
| `Consolidation.UniqueStrings` | core/evolve/consolidate.py:72-73 | Distinct nonempty strings with the same members as the input. |
| `Consolidation.ContextIdsDistinct` | core/evolve/consolidate.py:102-106 | A packet that repeats an id, or carries an empty one, is counted once or not at all. |
| `Consolidation.CountAccesses` | core/evolve/consolidate.py:216-230 | The access loop adds one access and one marker to every included live record that has none for this run. |
| `Consolidation.AwardCredits` | core/evolve/consolidate.py:502-520 | The credit loop reinforces the included, credited, unadded and uncontradicted records once per run. |
| `Consolidation.Strike` | core/evolve/consolidate.py:522-550 | The strike loop marks each contradicted live record once per run and quarantines it at the second strike. |
| `Consolidation.ContradictedDistinct` | core/evolve/consolidate.py:249-255 | The contradicted ids are distinct and are exactly the stored, included, attributed episodic records whose root the cited fresh evidence contradicts. |
| `Consolidation.ConsolidateRun` | core/evolve/consolidate.py:183-260 | The three bookkeeping loops of one run in the source's order, with the early return when there is no diagnosis. |
| `RunEvidence.ContradictionIs` | core/evolve/consolidate.py:198-218 | Contradiction by events: the record is in the first compiled context, attributed, episodic, and its first root tag is contradicted by a row with an id that the first diagnosis cites and an unblocked tool call produced. |
| `RunEvidence.ConsolidationIs` | core/evolve/consolidate.py:502-550 | The whole effect of a consolidation on each record that learning left in its place, by events and fields alone: the access counted, the credit given, the strike and at the second strike the quarantine. |
| `RunEvidence.CreditMarkerGained` | core/evolve/consolidate.py:236-280 | A record gains the credit marker if and only if the first verifier result passed, the first diagnosis has a root, the record is in the first context and resolved or used as a procedural shortcut, it is neither contradicted nor added by the run, and it lacks the marker; it then gains 0.1 confidence up to the cap, 0.5 importance and full strength, and otherwise these stay. |
| `TwoStrikes.ConsolidatedAt` | core/evolve/consolidate.py:219-255 | The three store-wide loops act on each record by itself, whatever the other records are. |
| `TwoStrikes.CreditExcludesStrike` | core/evolve/consolidate.py:504-511 | For every store, run and record, whatever the run learned: one run never leaves both a new credit marker and a new strike marker. |
| `TwoStrikes.StateOverRuns` | core/evolve/consolidate.py:526-541 | Over every sequence of runs, even if learning retires the record, its strike markers are exactly the ids of the runs that accused it while it was live, up to the second. |
| `TwoStrikes.StruckOutIffTwoLiveAccusers` | core/evolve/consolidate.py:198-203 | Over every sequence of runs, even if learning retires the record for another reason in between: an episodic memory without strikes carries the contradiction tag if and only if two runs with different ids accused it while it was live (included it, attributed it, cited evidence from an unblocked tool call against its root), and then it is quarantined. |
| `TwoStrikes.QuarantinedIffTwoAccusers` | core/evolve/consolidate.py:198-203 | In particular, if learning leaves a live one alive, it ends quarantined if and only if two runs with different ids accused it. |
| `TwoStrikes.StaysSettled` | core/evolve/consolidate.py:522-525 | Once a run has been consolidated, a record carries every marker that run could still give it, through any other runs that follow. |
| `TwoStrikes.ReplayChangesNothing` | core/evolve/consolidate.py:522-525 | Consolidating an earlier run again, with any other runs in between and any learning that keeps the record's marks, gives the record no access, credit or strike. |
| `TwoStrikes.ImmediateReplay` | core/evolve/consolidate.py:522-525 | In particular, the bookkeeping of one run done twice in a row is the bookkeeping done once, for every store. |
| `OverlapSweep.PeakOverlap` | core/eval/multiagent_parallel_benchmark.py:88-98 | For findings that do not end before they start, the swept peak is reached at some instant and exceeded at none. |
| `OverlapSweep.OverlapIsReached` | core/eval/multiagent_parallel_benchmark.py:95-97 | At every instant the number of running findings is the running count after the points up to that instant. |
| `OverlapSweep.RunningIsOverlap` | core/eval/multiagent_parallel_benchmark.py:95-97 | The running count after any point, even in the middle of a tie, is at most what really runs at some instant. |
| `OverlapSweep.SweepFindsPeak` | core/eval/multiagent_parallel_benchmark.py:88-98 | The maximum running count is the maximum over all real instants of the number of findings with start <= t < finish. |
| `TocParser.Parser.HandleListOpen` | core/eval/fortios_corpus.py:107-108 | A toc list open deepens the parser; any other list does not. |
| `TocParser.Parser.HandleLink` | core/eval/fortios_corpus.py:119-129 | A titled section link records its chain if it is new or longer, and takes its place on the stack. |
| `TocParser.Parser.HandleListClose` | core/eval/fortios_corpus.py:132-134 | A list close drops the entries of its level. |
| `TocParser.Parser.Feed` | core/eval/fortios_corpus.py:137-141 | Feeding a stream of events runs the stack machine over it. |
| `TocParser.ParseItems` | core/eval/fortios_corpus.py:119-134 | Inside an open list, the items of any forest are recorded under the path the stack spells, and what lies above their level is left untouched. |
| `TocParser.ParseForest` | core/eval/fortios_corpus.py:105-134 | A rendered forest is parsed completely from any state, and leaves depth and stack as they were. |
| `TocParser.ParsingInvertsRendering` | core/eval/fortios_corpus.py:87-93 | For every forest the machine returns exactly its sections with their paths of ancestor titles and ends with nothing open; over two renderings both listings are merged. |
| `TocParser.RecordKeepsLongest` | core/eval/fortios_corpus.py:90-92 | The result holds every listed section and no other, each with the first of the longest chains listed for it. |
| `TocParser.EverySectionRecovered` | core/eval/fortios_corpus.py:137-141 | With unique ids every node of the forest is recovered with its title, slug and exact path. |
| `TocParser.NoiseIsIgnored` | core/eval/fortios_corpus.py:105-131 | Other lists opening and links without a section or a title make no difference, wherever they come. |
| `TocParser.OtherListCloses` | core/eval/fortios_corpus.py:132-134 | A closing tag does not say which list it closes: a list of another kind changes nothing if and only if it comes outside the table of contents; inside it ends a level of the table. |
| `Chunker.Builder.EmitChunk` | core/eval/fortios_corpus.py:272-286 | Cutting a chunk numbers it by its place and empties the buffer; a blank body makes no chunk. |
| `Chunker.Builder.AddHeading` | core/eval/fortios_corpus.py:292-306 | A heading below the title updates the trail, cuts at a second-level heading and joins the buffer. |
| `Chunker.Builder.AddBody` | core/eval/fortios_corpus.py:307-312 | A body block joins the buffer and cuts once the target length is reached. |
| `Chunker.ChunkSection` | core/eval/fortios_corpus.py:250-321 | The loop over blocks and the tail merge compute the chunks described by the next rows. |
| `Chunker.ChunksAreGroups` | core/eval/fortios_corpus.py:272-314 | Before the tail merge, chunk i is the newline join of the i-th group of consecutive blocks, is not empty and is numbered i. |
| `Chunker.ChunkingIsLossless` | core/eval/fortios_corpus.py:261-263 | For all delivered blocks the newline join of the chunks is the newline join of all blocks but the titles, in order, and numbers run from zero without a gap, tail merge included. |
| `Chunker.CutsHaveReasons` | core/eval/fortios_corpus.py:261-263 | Before the tail merge a second-level heading stands only at the front of a chunk, and every chunk but the last has reached the target length or is followed by a second-level heading. |
| `Chunker.FinalChunksAreGroups` | core/eval/fortios_corpus.py:314-320 | Chunk i as returned is the newline join of the i-th final group of consecutive blocks, tail merge included. |
| `Chunker.H2InsideIffMerged` | core/eval/fortios_corpus.py:261-263 | A returned chunk has a second-level heading inside it if and only if the tail merge took in a chunk that begins with one: at least two chunks, the last text shorter than 60. |
| `Chunker.TitleInsideIffOpen` | core/eval/fortios_corpus.py:261-263 | Before the tail merge a chunk runs across a title heading if and only if a chunk is open when the title comes and the next block that is not a title exists and is no second-level heading. |
| `Chunker.MergeInside` | core/eval/fortios_corpus.py:315-320 | The tail merge closes exactly one boundary: the one in front of the chunk it takes in. |
| `Chunker.TitleStraddled` | core/eval/fortios_corpus.py:261-263 | The concrete input for titles: two body blocks around a title end up in one chunk. |
| `Chunker.SectionStraddled` | core/eval/fortios_corpus.py:261-263 | The concrete input for second-level headings: a short body and a short section end up in one chunk. |
| `ChunkTrails.ChunksCarryTrails` | core/eval/fortios_corpus.py:273-309 | Every chunk returned carries the heading trail that was current after its first block, a heading that begins it included. |
| `ChunkTrails.TrailIsOutlineIffNoGap` | core/eval/fortios_corpus.py:290-296 | The trail is the nested outline of open headings throughout a section if and only if every heading d levels below the second finds the first d open headings less deep than itself. |
| `ChunkTrails.GapKeepsHeading` | core/eval/fortios_corpus.py:290-296 | Where it is not: after two third-level headings at the start of a section both are in the trail. |
| `ChunkTrails.GroupsAreEarliest` | core/eval/fortios_corpus.py:303-307 | Before the tail merge no chunk goes on behind a body block that brought it to the target length. |
| `Retrieval.PostTokens` | core/eval/ioda_retrieval.py:165-166 | Adds one document to the postings of exactly its own tokens. |
| `Retrieval.BuildCorpus` | core/eval/ioda_retrieval.py:148-179 | Construction succeeds if and only if all document ids differ, and then every index holds exactly what the pool says; otherwise it names the first record that repeats an id. |
| `Retrieval.BisectLeft` | core/eval/ioda_retrieval.py:188 | Splits sorted times into those before a start and the rest. |
| `Retrieval.BisectRight` | core/eval/ioda_retrieval.py:189 | Splits sorted times into those up to an end and the rest. |
| `Retrieval.DocsInWindow` | core/eval/ioda_retrieval.py:187-190 | The slice of the sorted index is the pool filtered by the window, in time order; a backwards window selects nothing. |
| `Retrieval.Candidates` | core/eval/ioda_retrieval.py:279-284 | The typed index and the window offer a document if and only if it scores above zero, and nothing from outside the pool. |
| `Retrieval.OfferedIsScored` | core/eval/ioda_retrieval.py:261-272 | Why: a document is offered if and only if it matches a join key, whatever the tie-breaking axes add. |
| `Retrieval.RankCandidates` | core/eval/ioda_retrieval.py:285-291 | The order in which a candidate set is visited does not matter: the ranking is that of any list of the same hits. |
| `Retrieval.RetrieveStructured` | core/eval/ioda_retrieval.py:275-293 | Index retrieval returns what scoring, sorting and cutting the whole pool returns. |
| `Retrieval.LexicalCandidates` | core/eval/ioda_retrieval.py:181-185 | The inverted index offers exactly the documents that share a term with the query. |
| `Retrieval.RetrieveNaive` | core/eval/ioda_retrieval.py:226-241 | The token-overlap retriever agrees with a full scan, for empty queries and cut-offs below one too. |
| `Retrieval.RetrieveBm25` | core/eval/ioda_retrieval.py:244-258 | Scoring only the documents that share a term is exact for every score that is zero without one, as the comment claims. |
| `Retrieval.Retrieve` | core/eval/ioda_retrieval.py:226-293 | Each of the single-score retrievers returns what scoring, sorting and cutting the whole pool returns. |
| `Retrieval.RankOnce` | core/eval/ioda_retrieval.py:383-389 | Retrieving once for the largest cut-off and slicing gives, for every cut-off, what its own retrieval returns, for each of the single-score retrievers. |
| `Retrieval.RankingIsBest` | core/eval/ioda_retrieval.py:290-291 | A ranking repeats nothing, holds scoring documents only, leaves out none that outranks one it holds, and is shorter than asked only if documents run out. |
| `RetrievalRules.RankingDescends` | core/eval/ioda_retrieval.py:290-291 | A ranking holds each scoring document once, the higher score first and among equal scores the smaller id. |
| `RetrievalRules.StringLeMeans` | core/eval/ioda_retrieval.py:290 | Ids are compared at the first character in which they differ, and an id comes before its extensions. |
| `RetrievalRules.StructuredOrder` | core/eval/ioda_retrieval.py:261-272 | Over any two records and any event: a record scores if and only if it is on a named entity or in the event's time, and the score puts being on an entity above being in time, and that above kind and source together. |
| `RetrievalRules.StructuredRankingIs` | core/eval/ioda_retrieval.py:275-293 | So of two records in the structured ranking the first precedes the other in that order, or neither does and its id is smaller. |
| `RetrievalRules.OverlapOrder` | core/eval/ioda_retrieval.py:235-238 | In the token-overlap ranking only the number of distinct query words found decides. |
| `RetrievalRules.RecordWords` | core/eval/ioda_retrieval.py:123-137 | A record is known by the words of its entity, entity type, source, signal type, phase, origin network and collector. |
| `RetrievalRules.QueryWords` | core/eval/ioda_retrieval.py:219-223 | An event is asked for by the words of its locations, its networks, its type and its cause. |
| `RankFusion.RrfFuse` | core/memory/rrf.py:15-30 | The accumulating loops fuse any number of rankings into the order of the summed reciprocal ranks, ties by id. |
| `RankFusion.FusionIsUnanimous` | core/memory/rrf.py:15-30 | A document that is ahead of another in every ranking that has the other is returned, and returned first, whenever the other is. |
| `RankFusion.GainAt` | core/memory/rrf.py:26-28 | A document at place p of a list, counted from zero, gains 1 / (61 + p) from it. |
| `RetrievalRules.FusionDescends` | core/memory/rrf.py:24-30 | Two rankings are fused into each document of either, once, the larger sum of what the two places give first and among equal sums the smaller id. |
| `Bm25.Fit` | core/memory/bm25.py:42-57 | Fitting fills every field of the index with what the formula asks of the pool: word counts, lengths, average length, inverse document frequencies; a word that no document holds has none. |
| `Bm25.CountHolders` | core/memory/bm25.py:52-54 | The loop over the documents counts, for each word, the documents that hold it. |
| `Bm25.ScoreDocument` | core/memory/bm25.py:59-69 | The scoring loop over the query's words computes the BM25 sum of a document of the pool. |
| `Bm25.ScoredIffShared` | core/eval/ioda_retrieval.py:248-254 | A document scores above zero if and only if it shares a word with the query, and zero otherwise, for any logarithm that is positive above one. |
| `Bm25.ShorterScoresHigher` | core/memory/bm25.py:62-69 | Of two documents of the pool with the same number of each of the query's words the shorter one scores at least as high, and strictly higher if a word is shared. |
| `Bm25.ScoreSaturates` | core/memory/bm25.py:68 | Repeating a word raises its score, but never to two and a half times its weight. |
| `Bm25.IndexRanks` | core/memory/bm25.py:59-69 | Scoring by the index ranks the pool as the formula does. |
| `RetrievalRules.WordScores` | core/memory/bm25.py:54-69 | The published formula with 1.5 and 0.75, cleared of fractions: what a word scores that occurs f times among the words of a document, h of n documents having it, with log((n + 1) / (h + 1/2)) for its rarity. |
| `RetrievalRules.ScoreAddsUp` | core/memory/bm25.py:63-69 | A query scores the sum of its parts. |
| `Bm25.RetrieveByTerms` | core/eval/ioda_retrieval.py:244-258 | Scoring only the documents that share a word is exact for BM25, as the comment claims. |
| `EvidenceText.TokenizeJoin` | core/memory/bm25.py:25-31 | The words of texts joined by blanks are the words of the texts, in order. |
| `EvidenceText.SeparatorsAreBlanks` | core/eval/ioda_retrieval.py:123-137 | Replacing underscores, hyphens and plus signs by blanks does not change the words. |
| `EvidenceText.MatchedEntityIsShared` | core/eval/ioda_retrieval.py:211-223 | A record on one of the event's entities shares a word with the event's query, provided the entity's name has a word at all. |
| `EvidenceText.StopWordCountry` | core/memory/bm25.py:18-31 | The proviso matters: the country code IN is a stop word and leaves no word. |
| `HybridRetrieval.RetrieveHybrid` | core/eval/ioda_retrieval.py:309-311 | The hybrid retriever fuses the complete BM25 ranking and the complete profile ranking, each read to a depth of k but never less than ten. |
| `HybridRetrieval.HybridSlicesExactly` | core/eval/ioda_retrieval.py:361-362 | The claim that every retriever returns a stable prefix is not true of the hybrid: slicing what it returns for a larger cut-off gives what it returns for k, over all evidence records with distinct document ids and all outage events, if and only if k is below one, the two are equal, or the larger one is at most ten. |
| `HybridRetrieval.DeepTokens` | core/eval/ioda_retrieval.py:123-137 | The words of the failing records: each mentions the event's network once and has more words than the one before. |
| `HybridRetrieval.DeepRankings` | core/eval/ioda_retrieval.py:244-293 | The two rankings the retrievers give for the failing records and event: by BM25 all records in order, by profile the last one only. |
| `HybridRetrieval.SlicingFails` | core/eval/ioda_retrieval.py:309-311 | On those records slicing fails for every cut-off above ten and whatever the document ids are, as long as the last id does not come before the first: the record just below the depth read for k wins once one more place is read. |

## Left out

Weaker than the source, or under a hypothesis:

- TwoStrikes.StruckOutIffTwoLiveAccusers: what a run learns between the access loop and the credit loop (new episodic, semantic and procedural memories, updates, supersession, reflection, linking) is an arbitrary change of the store that keeps the record's id, tier, root tag and strike markers, neither adds nor removes the contradiction tag, and does not bring a retired record back.
- Supersession.SupersedeBy: a candidate whose id is in the store stands for the record stored under it; a second object with the same id but other fields is not modelled.
- Consolidation.ContradictedDistinct: an evidence row without an id contradicts nothing in the model; the code would read its id as the text None.
- TwoStrikes.ReplayChangesNothing: learning, of the replay and of the runs in between, is an arbitrary change of the store that keeps the record's identity, root and markers, and does not bring a retired record back; a record that the first consolidation added is added again, by the replay's own account, or was there before.
- Consolidation.ConsolidateRun: the three bookkeeping loops; the learning writes, skill counters and report lists of the same function are not part of it.
- TimelineRuns.TimelineIsComplete: observation times are fixed once a record is added; no update merges two records in between. Consecutive events are the strictly nearest of each other; among events at the same instant the code joins the first inserted one only.
- TimelineRuns.TimelineIsSound: records enter the store without relations of their own.
- SimilarLinks.MostSimilarAreLinked: for a record that has no similarity edges before the pass, and a similarity that does not look at edges; edges from earlier passes are kept (TimelineRuns.LinkRelatedSound).
- RunEvidence.ConsolidationIs: learning between the access loop and the credit loop is any change of the store that leaves the record in its place.
- MutualPairs.PairsDecide: every session has its live record in the store before the pass, and session ids are distinct.
- RoomForAll.NothingDroppedIff: requests that fit the token budget as a whole; for others the bounds of Reclaim and ContextOverflow hold.
- Timeline.LinkRelatedRecords: takes any similarity score, of which the one in use is an instance.
- Timeline.FamilySimilarityIsShare: case folding is a parameter; the rounding is of exact values.
- FactHistory.StoreRefinesLog: times per key do not go backwards, as the design assumes; with an earlier time the code may open a second interval over an old one.
- FactHistory.ObserveFact: the random id of the new record is a parameter; instants are integers, so the reading of naive times as UTC is not modelled.
- Supersession.SupersessionIsMatching: every session has its live record in the store before the pass, and session ids are distinct.
- ContextCompiler.Create: section names are an enumeration, so the error for an unknown name cannot arise; budgets are integers by type.
- ContextCompiler.Compile: the timeline and the content of a memory and the details of the evolution chain are given as text; compression_ratio and the run-time type check of a custom counter are not modelled.
- ContextReservations.SuppliedLimit: requests whose memories form an evolution chain, where one direction is proved (ContextOverflow.SmallReservationsSuffice); the chain's line is given as text, while the code derives it from relations that show in the memories' own lines.
- Chunker.ChunkSection: a chunk carries its number, heading trail and text; the id string, the table-of-contents path and the breadcrumb derived from them are not modelled.
- TocParser.Parser.Feed: starts from list and link events; tokenising HTML and matching the link address are not modelled.
- Retrieval.BuildCorpus: the hash that makes a document id from an evidence id and time parsing are given with the record.
- Retrieval.RetrieveBm25: takes any term score that is zero where no query word occurs; BM25 itself is one (Bm25.RetrieveByTerms). Of the logarithm in it only the sign above one is used.
- EvidenceText.TokenizeJoin: lower-casing maps A to Z only; the few characters beyond ASCII whose lower case is a plain letter are not modelled.
- HybridRetrieval.HybridSlicesExactly: the mode without stemming and query expansion; document ids are given with the records, not computed by the hash.
- SignedRankDuality.IntervalInvertsTest: shifts that are themselves pairwise averages, where the shifted differences contain zeros or ties of opposite sign.
- Retrieval.RankOnce: cut-offs are not negative, as the evaluation passes them.

Throughout:

- Floating point: section weights are integers in hundredths, and scores, ranks, confidences and p-values are exact reals, so rounding errors, and ties made or broken by them, are not modelled; rounding results to four or six decimals for display is left out.
- Utility scores are rounded to six decimals before they are compared; the model compares them exactly.
- White space is the set of characters that the regular expression class and strip agree on; surrogate pairs do not arise.
- The store's retrieval indexes, repository, flush and vector projection; decay_and_forget, restore, redact and purge; route and apply_route; reflect.
- The observability recorder, which never changes a decision.
- Bootstrap sampling, percentiles, report shapes, and the drivers around every component.
- Evaluation metrics over retrieved lists, the CRAG gate, stemming and query expansion.
