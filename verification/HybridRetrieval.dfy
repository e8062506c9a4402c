/** The retriever that fuses the term ranking and the profile ranking, and slicing what it returns
    (core/eval/ioda_retrieval.py). */
module HybridRetrieval {
  import opened Basics
  import opened Sorting
  import opened Retrieval
  import opened Bm25
  import opened EvidenceText
  import opened RankFusion

  const HEADLINE_K := 10

  /** The hybrid's ranking for k, given the complete term and profile rankings of a query: each is read to a depth of
      k, but never less than ten. */
  function Hybrid(lexical: seq<string>, structured: seq<string>, k: int): seq<string> {
    var depth := Max(k, HEADLINE_K);
    Fuse([Take(lexical, depth), Take(structured, depth)], k)
  }

  function ByWords(pool: seq<Evidence>, q: Query, log: real -> real): seq<string> {
    Ranking(pool, ByTerms(pool, log, q.lex))
  }

  method RetrieveHybrid(c: Corpus, ghost pool: seq<Evidence>, q: Query, k: int, index: Index, ghost log: real -> real)
    returns (ranked: seq<string>)
    requires Indexed(c, pool) && Fitted(index, pool, log) && IsLog(log)
    ensures ranked == Hybrid(ByWords(pool, q, log), Ranking(pool, ByProfile(q, true)), k)
  {
    hide Indexed, Fitted, IsLog, Ranking, Fuse, ByTerms, ByProfile, Take;
    var depth := Max(k, HEADLINE_K);
    var lexical := RetrieveByTerms(c, pool, q, depth, index, log);
    var structured := RetrieveStructured(c, pool, q, depth, true);
    ranked := RrfFuse([lexical, structured], k);
  }

  // ---- slicing ----

  ghost predicate SlicesTo(lexical: seq<string>, structured: seq<string>, k: int, longer: int) {
    Hybrid(lexical, structured, k) == Take(Hybrid(lexical, structured, longer), k)
  }

  /** Slicing, for what the retriever returns on records and an event. */
  ghost predicate RecordsSlice(records: seq<Record>, o: Outage, log: real -> real, k: int, longer: int) {
    SlicesTo(ByWords(PoolOf(records), QueryOf(o), log), Ranking(PoolOf(records), ByProfile(QueryOf(o), true)), k, longer)
  }

  lemma SameDepthSlices(a: seq<string>, b: seq<string>, k: int, longer: int)
    requires k <= longer && (k <= 0 || k == longer || longer <= 10)
    ensures SlicesTo(a, b, k, longer)
  {
    hide Sort, HitLe, Items;
  }

  lemma PrefixDistinct(s: seq<string>, n: nat)
    requires Distinct(s) && n < |s|
    ensures Distinct(s[..n]) && s[n] !in s[..n] && (n > 0 ==> s[0] != s[n])
  {
  }

  /** The last of the list is first once one more place is read, and not before. */
  lemma DeeperReadingDiffers(x: seq<string>, k: int, longer: int)
    requires 0 < k < longer && longer > 10 && |x| == Max(k, 10) + 1
    requires Distinct(x) && StringLe(x[0], x[|x| - 1])
    ensures !SlicesTo(x, [x[|x| - 1]], k, longer)
  {
    hide Fuse, Distinct, StringLe;
    var depth := Max(k, HEADLINE_K);
    var id := x[depth];
    PrefixDistinct(x, depth);
    FirstOnTop(x[..depth], id, k);
    LastOnTop(x, longer);
    assert Take(x, depth) == x[..depth] && Take(x, longer) == x;
    assert Take([id], depth) == [id] == Take([id], longer);
  }

  // ---- a pool and an event on which the rankings are such ----

  function Copies(n: nat): seq<string> {
    seq(n, i => "rrc00")
  }

  /** A list of n collectors. */
  function Collectors(n: nat): string {
    if n == 0 then "" else if n == 1 then "rrc00" else "rrc00+" + Collectors(n - 1)
  }

  /** Record i: a country whose origin is the event's network, seen by i collectors; the last one is on the network
      itself, seen by more than all others. */
  function DeepRecord(ids: seq<string>, i: nat): Record
    requires i < |ids|
  {
    if i < |ids| - 1 then Record(ids[i], ids[i], "SE", "country", "bgp", "visibility", "during", "1299", Collectors(i), 0, "event")
    else Record(ids[i], ids[i], "1299", "asn", "bgp", "visibility", "during", "", Collectors(|ids|), 0, "event")
  }

  function DeepRecords(ids: seq<string>): (records: seq<Record>)
    ensures |records| == |ids|
  {
    seq(|ids|, i requires 0 <= i < |ids| => DeepRecord(ids, i))
  }

  const NETWORK_DOWN := Outage([], ["1299"], [], "", "", 1, 2)

  lemma {:induction false} RunOn(t: string, open: string)
    requires forall i :: 0 <= i < |t| ==> IsWordChar(t[i])
    ensures Runs(t, open) == Closed(open + t)
    decreases |t|
  {
    if t != "" {
      RunOn(t[1..], open + [t[0]]);
      assert open + [t[0]] + t[1..] == open + t;
    } else {
      assert open + t == open;
    }
  }

  /** A text of two or more letters or digits that is no stop word is one word. */
  lemma OneWord(t: string)
    requires IsKept(Lower(t)) && forall i :: 0 <= i < |t| ==> IsWordChar(Lower(t)[i])
    ensures Tokenize(t) == [Lower(t)]
  {
    RunOn(Lower(t), "");
    assert "" + Lower(t) == Lower(t);
    FilterAll(IsKept, [Lower(t)]);
  }

  lemma CollectorWord()
    ensures Tokenize("rrc00") == ["rrc00"]
  {
    assert Lower("rrc00") == "rrc00";
    OneWord("rrc00");
  }

  lemma BlankedPlus(rest: string)
    ensures Replace("rrc00" + "+" + rest, '+') == Replace("rrc00" + " " + rest, '+')
  {
  }

  lemma {:induction false} CollectorRuns(n: nat)
    ensures Tokenize(Collectors(n)) == Copies(n)
  {
    hide Tokenize, Replace;
    if n == 0 {
      NothingTokenized();
    } else if n == 1 {
      CollectorWord();
      assert Copies(1) == ["rrc00"];
    } else {
      var t, rest := Collectors(n), Collectors(n - 1);
      assert t == "rrc00" + "+" + rest;
      SeparatorsAreBlanks(t, '+');
      SeparatorsAreBlanks("rrc00" + " " + rest, '+');
      BlankedPlus(rest);
      TokenizeSplits("rrc00", rest);
      CollectorWord();
      CollectorRuns(n - 1);
      assert Copies(n) == ["rrc00"] + Copies(n - 1);
    }
  }

  lemma {:induction false} CollectorWords(n: nat)
    ensures Tokenize(Collectors(n)) == Copies(n)
    ensures Tokenize(Replace(Replace(Collectors(n), '+'), '_')) == Copies(n)
  {
    hide Tokenize, Replace, Copies;
    SeparatorsAreBlanks(Collectors(n), '+');
    SeparatorsAreBlanks(Replace(Collectors(n), '+'), '_');
    CollectorRuns(n);
  }

  predicate IsPlain(t: string) {
    Lower(t) == t && IsKept(t) && forall i :: 0 <= i < |t| ==> IsWordChar(t[i])
  }

  lemma CountryIsPlain()
    ensures IsPlain("country")
  {
    assert Lower("country") == "country";
  }

  lemma AsnIsPlain()
    ensures IsPlain("asn")
  {
    assert Lower("asn") == "asn";
  }

  lemma NumberIsPlain()
    ensures IsPlain("1299")
  {
    assert Lower("1299") == "1299";
  }

  lemma BgpIsPlain()
    ensures IsPlain("bgp")
  {
    assert Lower("bgp") == "bgp";
  }

  lemma SignalIsPlain()
    ensures IsPlain("visibility")
  {
    assert Lower("visibility") == "visibility";
  }

  lemma PhaseIsPlain()
    ensures IsPlain("during")
  {
    assert Lower("during") == "during";
  }

  lemma CodeIsPlain()
    ensures IsPlain("se")
  {
    assert Lower("se") == "se";
  }

  lemma PlainWord(t: string)
    requires IsPlain(t)
    ensures Tokenize(t) == [t]
    ensures Tokenize(Replace(t, '_')) == [t] && Tokenize(Replace(Replace(t, '_'), '-')) == [t]
  {
    OneWord(t);
    assert Replace(t, '_') == t && Replace(t, '-') == t;
  }

  lemma CodeWord()
    ensures Tokenize("SE") == ["se"]
  {
    hide Runs, IsKept, STOP;
    CodeIsPlain();
    assert Lower("SE") == "se";
    OneWord("SE");
  }

  lemma FieldWords()
    ensures Tokenize("SE") == ["se"] && Tokenize("country") == ["country"] && Tokenize("1299") == ["1299"] && Tokenize("asn") == ["asn"]
    ensures Tokenize(Replace("bgp", '_')) == ["bgp"] && Tokenize("during") == ["during"]
    ensures Tokenize(Replace(Replace("visibility", '_'), '-')) == ["visibility"]
  {
    hide IsPlain, Tokenize, Replace;
    CountryIsPlain();
    AsnIsPlain();
    NumberIsPlain();
    BgpIsPlain();
    SignalIsPlain();
    PhaseIsPlain();
    PlainWord("country");
    PlainWord("asn");
    PlainWord("1299");
    PlainWord("bgp");
    PlainWord("visibility");
    PlainWord("during");
    CodeWord();
  }

  /** The words of record i. */
  function DeepWords(n: nat, i: nat): seq<string> {
    if i < n - 1 then ["se", "country", "bgp", "visibility", "during", "1299"] + Copies(i)
    else ["1299", "asn", "bgp", "visibility", "during"] + Copies(n)
  }

  lemma OptionalWords(field: string, text: string)
    requires |field| == |text|
    ensures AllWords(if field == "" then [] else [text]) == Tokenize(text)
  {
    hide Tokenize;
    if field == "" {
      assert text == "";
      NothingTokenized();
    } else {
      assert [text][1..] == [];
    }
  }

  lemma FiveWords(a: string, b: string, c: string, d: string, e: string)
    ensures AllWords([a, b, c, d, e]) == Tokenize(a) + Tokenize(b) + Tokenize(c) + Tokenize(d) + Tokenize(e)
  {
    hide Tokenize;
    assert [a, b, c, d, e] == [a] + ([b] + ([c] + ([d] + [e])));
    AllWordsSplit([a], [b] + ([c] + ([d] + [e])));
    AllWordsSplit([b], [c] + ([d] + [e]));
    AllWordsSplit([c], [d] + [e]);
    AllWordsSplit([d], [e]);
    forall t: string ensures AllWords([t]) == Tokenize(t) {
      assert [t][1..] == [];
    }
  }

  lemma DeepTokens(ids: seq<string>, i: nat)
    requires i < |ids|
    ensures EvidenceOf(DeepRecord(ids, i)).tokens == DeepWords(|ids|, i)
  {
    hide Tokenize, Replace, Collectors, Copies, AllWords;
    var r := DeepRecord(ids, i);
    FieldWords();
    CollectorWords(if i < |ids| - 1 then i else |ids|);
    TokenizeJoin(Parts(r));
    var source, signal := Replace(r.source, '_'), Replace(Replace(r.signalType, '_'), '-');
    var seen := Replace(Replace(r.collector, '+'), '_');
    FiveWords(r.entityId, r.entityType, source, signal, r.phase);
    var five := [r.entityId, r.entityType, source, signal, r.phase];
    var origin, collector := if r.originAs == "" then [] else [r.originAs], if r.collector == "" then [] else [seen];
    OptionalWords(r.originAs, r.originAs);
    OptionalWords(r.collector, seen);
    NothingTokenized();
    AllWordsSplit(five + origin, collector);
    AllWordsSplit(five, origin);
    assert Parts(r) == five + origin + collector;
  }

  lemma EventWords()
    ensures var q := QueryOf(NETWORK_DOWN);
      q.lex == ["1299"] && q.countries == {} && q.asns == {"1299"} && q.kinds == {"asn"} && q.hints == {} && q.start == 1 && q.end == 2
  {
    hide Tokenize;
    NumberIsPlain();
    PlainWord("1299");
    NothingTokenized();
    TokenizeJoin(QueryParts(NETWORK_DOWN));
    assert QueryParts(NETWORK_DOWN) == ["1299"] + ["", ""];
    AllWordsSplit(["1299"], ["", ""]);
    OptionalWords("1299", "1299");
    assert ["", ""][1..] == [""] && [""][1..] == [];
    assert TokenSet([]) == {};
  }

  lemma DeepCounts(n: nat, i: nat)
    requires i < n
    ensures multiset(DeepWords(n, i))["1299"] == 1
    ensures |DeepWords(n, i)| == if i < n - 1 then 6 + i else 5 + n
  {
    var head, m := if i < n - 1 then ["se", "country", "bgp", "visibility", "during", "1299"] else ["1299", "asn", "bgp", "visibility", "during"],
                   if i < n - 1 then i else n;
    assert "1299" !in Copies(m);
    assert multiset(Copies(m))["1299"] == 0;
    assert multiset(head)["1299"] == 1;
    assert DeepWords(n, i) == head + Copies(m);
  }

  lemma DeepIds(ids: seq<string>)
    requires Distinct(ids)
    ensures UniqueIds(PoolOf(DeepRecords(ids)))
    ensures forall i :: 0 <= i < |ids| ==> PoolOf(DeepRecords(ids))[i].docId == ids[i]
  {
    hide Tokenize, Lower, Replace, Collectors;
  }

  lemma {:induction false} AllHit(pool: seq<Evidence>, score: Evidence -> real)
    requires forall i :: 0 <= i < |pool| ==> score(pool[i]) > 0.0
    ensures |Hits(pool, score)| == |pool|
    ensures forall i :: 0 <= i < |pool| ==> Hits(pool, score)[i] == Hit(score(pool[i]), pool[i].docId)
  {
    if pool != [] {
      AllHit(pool[..|pool| - 1], score);
    }
  }

  lemma {:induction false} SortOfSorted<T(!new)>(s: seq<T>, le: (T, T) -> bool)
    requires SortedBy(s, le)
    ensures Sort(s, le) == s
  {
    if s != [] {
      SortOfSorted(s[1..], le);
      assert |s| > 1 ==> le(s[0], s[1]);
      assert s == [s[0]] + s[1..];
    }
  }

  /** A pool given by falling positive scores is its own ranking. */
  lemma FallingScores(pool: seq<Evidence>, score: Evidence -> real, ids: seq<string>)
    requires |ids| == |pool| && forall i :: 0 <= i < |pool| ==> pool[i].docId == ids[i] && score(pool[i]) > 0.0
    requires forall i, j :: 0 <= i < j < |pool| ==> score(pool[i]) > score(pool[j])
    ensures Ranking(pool, score) == ids
  {
    hide Hits, Sort, StringLe;
    AllHit(pool, score);
    SortOfSorted(Hits(pool, score), HitLe);
  }

  lemma WordIsShared(word: string, tokens: seq<string>)
    requires multiset(tokens)[word] > 0
    ensures Shares(TokenSet([word]), TokenSet(tokens))
  {
    assert word in TokenSet([word]) && word in TokenSet(tokens);
  }

  /** Each document has the event's network once, so the shorter ones come first. */
  lemma DeepLexical(ids: seq<string>, log: real -> real)
    requires Distinct(ids) && IsLog(log)
    ensures ByWords(PoolOf(DeepRecords(ids)), QueryOf(NETWORK_DOWN), log) == ids
  {
    hide IsLog, Ranking, Score, DeepWords, Tokenize, DeepRecord, EvidenceOf, QueryOf, Shares, TokenSet;
    var pool, q := PoolOf(DeepRecords(ids)), QueryOf(NETWORK_DOWN);
    DeepIds(ids);
    EventWords();
    forall i | 0 <= i < |ids|
      ensures multiset(pool[i].tokens)["1299"] == 1
      ensures |pool[i].tokens| == if i < |ids| - 1 then 6 + i else 5 + |ids|
      ensures Shares(TokenSet(q.lex), TokenSet(pool[i].tokens)) && Score(pool, log, q.lex, pool[i].tokens) > 0.0
    {
      DeepTokens(ids, i);
      DeepCounts(|ids|, i);
      WordIsShared("1299", pool[i].tokens);
      ScoredIffShared(pool, log, q.lex, i);
    }
    forall i, j | 0 <= i < j < |ids| ensures Score(pool, log, q.lex, pool[i].tokens) > Score(pool, log, q.lex, pool[j].tokens) {
      ShorterScoresHigher(pool, log, q.lex, i, j);
    }
    FallingScores(pool, ByTerms(pool, log, q.lex), ids);
  }

  lemma NoHits(pool: seq<Evidence>, score: Evidence -> real)
    requires forall i :: 0 <= i < |pool| ==> score(pool[i]) <= 0.0
    ensures Hits(pool, score) == []
  {
    NothingScores(pool, score, 0);
  }

  lemma LastHit(pool: seq<Evidence>, score: Evidence -> real)
    requires pool != [] && Hits(pool[..|pool| - 1], score) == [] && score(pool[|pool| - 1]) > 0.0
    ensures Hits(pool, score) == [Hit(score(pool[|pool| - 1]), pool[|pool| - 1].docId)]
  {
  }

  /** Only the last record is on the event's network, and none falls into its time. */
  lemma DeepStructured(ids: seq<string>)
    requires Distinct(ids) && ids != []
    ensures Ranking(PoolOf(DeepRecords(ids)), ByProfile(QueryOf(NETWORK_DOWN), true)) == [ids[|ids| - 1]]
  {
    hide Sort, Hits, HitLe, QueryOf, Tokenize, Replace, Collectors;
    var pool, q := PoolOf(DeepRecords(ids)), QueryOf(NETWORK_DOWN);
    var score := ByProfile(q, true);
    var n := |ids| - 1;
    EventWords();
    AsnIsPlain();
    CountryIsPlain();
    NumberIsPlain();
    NoHits(pool[..n], score);
    LastHit(pool, score);
    SortOfSorted([Hit(score(pool[n]), ids[n])], HitLe);
  }

  /** The hybrid's two rankings of these records: all of them, and the last one. */
  lemma DeepRankings(ids: seq<string>, log: real -> real)
    requires Distinct(ids) && ids != [] && IsLog(log)
    ensures UniqueIds(PoolOf(DeepRecords(ids)))
    ensures ByWords(PoolOf(DeepRecords(ids)), QueryOf(NETWORK_DOWN), log) == ids
    ensures Ranking(PoolOf(DeepRecords(ids)), ByProfile(QueryOf(NETWORK_DOWN), true)) == [ids[|ids| - 1]]
  {
    hide *;
    DeepIds(ids);
    DeepLexical(ids, log);
    DeepStructured(ids);
  }

  /** So slicing fails on these records for every cut-off above ten, whatever their ids, as long as the last id does not
      come before the first. */
  lemma SlicingFails(ids: seq<string>, log: real -> real, k: int, longer: int)
    requires 0 < k < longer && longer > 10 && |ids| == Max(k, 10) + 1
    requires Distinct(ids) && StringLe(ids[0], ids[|ids| - 1]) && IsLog(log)
    ensures UniqueIds(PoolOf(DeepRecords(ids))) && !RecordsSlice(DeepRecords(ids), NETWORK_DOWN, log, k, longer)
  {
    hide SlicesTo, Distinct, StringLe, IsLog, ByWords, Ranking, UniqueIds, QueryOf, DeepRecords, PoolOf, ByProfile;
    DeepRankings(ids, log);
    DeeperReadingDiffers(ids, k, longer);
  }

  /** n ids in ascending order. */
  function Ids(n: nat): (ids: seq<string>)
    ensures |ids| == n
  {
    seq(n, i requires 0 <= i < n => seq(i + 1, j => 'd'))
  }

  lemma IdsAscend(n: nat)
    requires n > 0
    ensures Distinct(Ids(n)) && StringLe(Ids(n)[0], Ids(n)[n - 1])
  {
    forall i, j | 0 <= i < j < n ensures Ids(n)[i] != Ids(n)[j] {
      assert |Ids(n)[i]| == i + 1 && |Ids(n)[j]| == j + 1;
    }
  }

  /** The evaluator ranks once, for the largest cut-off, and slices. For the hybrid that is exact, over all records and
      events, if and only if the largest cut-off is at most ten or is the one asked for. */
  lemma HybridSlicesExactly(log: real -> real, k: int, longer: int)
    requires k <= longer && IsLog(log)
    ensures (forall records, o | UniqueIds(PoolOf(records)) :: RecordsSlice(records, o, log, k, longer))
            <==> k <= 0 || k == longer || longer <= 10
  {
    hide SlicesTo, UniqueIds, Ranking, ByWords, ByProfile, IsLog, Distinct, Ids, DeepRecords, PoolOf, QueryOf, StringLe;
    if k <= 0 || k == longer || longer <= HEADLINE_K {
      forall records, o | UniqueIds(PoolOf(records)) ensures RecordsSlice(records, o, log, k, longer) {
        SameDepthSlices(ByWords(PoolOf(records), QueryOf(o), log), Ranking(PoolOf(records), ByProfile(QueryOf(o), true)), k, longer);
      }
    } else {
      var n := Max(k, HEADLINE_K) + 1;
      IdsAscend(n);
      SlicingFails(Ids(n), log, k, longer);
    }
  }
}
