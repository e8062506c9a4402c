/** What decides the order of what is retrieved, read off the records and the event (core/eval/ioda_retrieval.py,
    core/memory/bm25.py, core/memory/rrf.py). */
module RetrievalRules {
  import opened Basics
  import opened Sorting
  import opened Retrieval
  import opened EvidenceText
  import opened Bm25
  import opened RankFusion
  import opened HybridRetrieval

  // ---- rankings descend ----

  ghost predicate SameUpTo(a: string, b: string, i: nat)
    requires i <= |a| && i <= |b|
  {
    a[..i] == b[..i]
  }

  /** Ids are compared where they first differ; an id comes before its extensions. */
  lemma {:induction false} StringLeMeans(a: string, b: string)
    ensures StringLe(a, b) <==> a <= b || exists i: nat :: i < |a| && i < |b| && SameUpTo(a, b, i) && a[i] < b[i]
  {
    if a != [] && b != [] {
      StringLeMeans(a[1..], b[1..]);
      if a[0] == b[0] {
        assert a == [a[0]] + a[1..] && b == [b[0]] + b[1..];
        if i: nat :| i < |a[1..]| && i < |b[1..]| && SameUpTo(a[1..], b[1..], i) && a[1..][i] < b[1..][i] {
          assert a[..i + 1] == [a[0]] + a[1..][..i] && b[..i + 1] == [b[0]] + b[1..][..i];
          assert SameUpTo(a, b, i + 1);
        }
        if i: nat :| i < |a| && i < |b| && SameUpTo(a, b, i) && a[i] < b[i] {
          assert a[1..][..i - 1] == a[..i][1..] && b[1..][..i - 1] == b[..i][1..];
          assert SameUpTo(a[1..], b[1..], i - 1);
        }
      } else {
        assert SameUpTo(a, b, 0);
        if i: nat :| i < |a| && i < |b| && SameUpTo(a, b, i) && a[i] < b[i] {
          assert i > 0 ==> a[..i][0] != b[..i][0];
        }
      }
    }
  }

  lemma SortedAt(sorted: seq<Hit>, m: nat, n: nat)
    requires SortedBy(sorted, HitLe) && m < n < |sorted|
    ensures HitLe(sorted[m], sorted[n])
  {
    hide HitLe;
  }

  lemma SameId(pool: seq<Evidence>, i: nat, score: Evidence -> real, h: Hit)
    requires UniqueIds(pool) && i < |pool| && h.id == pool[i].docId
    requires exists j :: 0 <= j < |pool| && h == Hit(score(pool[j]), pool[j].docId)
    ensures h == Hit(score(pool[i]), pool[i].docId)
  {
  }

  /** A ranking has the documents that score, each once, the higher score first and among equal scores the smaller id. */
  lemma RankingDescends(pool: seq<Evidence>, score: Evidence -> real)
    requires UniqueIds(pool)
    ensures Distinct(Ranking(pool, score))
    ensures forall i :: 0 <= i < |pool| ==> (pool[i].docId in Ranking(pool, score) <==> score(pool[i]) > 0.0)
    ensures forall m, n, i, j ::
      && 0 <= m < n < |Ranking(pool, score)| && 0 <= i < |pool| && 0 <= j < |pool|
      && Ranking(pool, score)[m] == pool[i].docId && Ranking(pool, score)[n] == pool[j].docId
      ==> score(pool[i]) > score(pool[j]) || (score(pool[i]) == score(pool[j]) && StringLe(pool[i].docId, pool[j].docId))
  {
    hide Hits, Sort, Distinct, SortedBy, StringLe, UniqueIds;
    var sorted := Sort(Hits(pool, score), HitLe);
    var r := Ranking(pool, score);
    SortedHits(pool, score, sorted);
    forall i, n | 0 <= i < |pool| && 0 <= n < |r| && r[n] == pool[i].docId ensures sorted[n] == Hit(score(pool[i]), pool[i].docId) {
      assert sorted[n] in sorted;
      SameId(pool, i, score, sorted[n]);
    }
    forall i | 0 <= i < |pool| ensures pool[i].docId in r <==> score(pool[i]) > 0.0 {
      if pool[i].docId in r {
        var n :| 0 <= n < |r| && r[n] == pool[i].docId;
        assert sorted[n] in sorted;
      }
      if score(pool[i]) > 0.0 {
        assert Hit(score(pool[i]), pool[i].docId) in sorted;
        var n :| 0 <= n < |sorted| && sorted[n] == Hit(score(pool[i]), pool[i].docId);
        assert r[n] == pool[i].docId;
      }
    }
    forall m, n | 0 <= m < n < |r| ensures HitLe(sorted[m], sorted[n]) {
      SortedAt(sorted, m, n);
    }
  }

  // ---- the words ----

  /** A record is known by the words of seven fields: separators make no difference, and absent fields have none. */
  lemma RecordWords(r: Record)
    ensures EvidenceOf(r).tokens
         == Tokenize(r.entityId) + Tokenize(r.entityType) + Tokenize(r.source) + Tokenize(r.signalType) + Tokenize(r.phase)
            + Tokenize(r.originAs) + Tokenize(r.collector)
  {
    hide Tokenize, Replace, AllWords;
    TokenizeJoin(Parts(r));
    SeparatorsAreBlanks(r.source, '_');
    SeparatorsAreBlanks(r.signalType, '_');
    SeparatorsAreBlanks(Replace(r.signalType, '_'), '-');
    SeparatorsAreBlanks(r.collector, '+');
    SeparatorsAreBlanks(Replace(r.collector, '+'), '_');
    var source, signal, seen := Replace(r.source, '_'), Replace(Replace(r.signalType, '_'), '-'), Replace(Replace(r.collector, '+'), '_');
    FiveWords(r.entityId, r.entityType, source, signal, r.phase);
    var five := [r.entityId, r.entityType, source, signal, r.phase];
    var origin, collector := if r.originAs == "" then [] else [r.originAs], if r.collector == "" then [] else [seen];
    OptionalWords(r.originAs, r.originAs);
    OptionalWords(r.collector, seen);
    AllWordsSplit(five + origin, collector);
    AllWordsSplit(five, origin);
  }

  /** An event is asked for by the words of its locations, its networks, its type and its cause. */
  lemma QueryWords(o: Outage)
    ensures QueryOf(o).lex == AllWords(o.locations) + AllWords(o.asns) + Tokenize(o.kind) + Tokenize(o.cause)
  {
    hide Tokenize, Replace, AllWords, Lower;
    var kind, cause := Replace(o.kind, '_'), Replace(o.cause, '_');
    TokenizeJoin(QueryParts(o));
    SeparatorsAreBlanks(o.kind, '_');
    SeparatorsAreBlanks(o.cause, '_');
    AllWordsSplit(o.locations + o.asns, [kind, cause]);
    AllWordsSplit(o.locations, o.asns);
    AllWordsFirst([kind, cause]);
    AllWordsFirst([cause]);
    EvidenceText.NoWords();
    assert [kind, cause][1..] == [cause] && [cause][1..] == [];
  }

  // ---- the structured retriever ----

  /** The record is about a country or a network that the event names. */
  ghost predicate OnEntity(r: Record, o: Outage) {
    || (Lower(r.entityType) == "country" && exists i :: 0 <= i < |o.locations| && Lower(o.locations[i]) == Lower(r.entityId))
    || (Lower(r.entityType) == "asn" && exists i :: 0 <= i < |o.asns| && Lower(o.asns[i]) == Lower(r.entityId))
  }

  predicate InTime(r: Record, o: Outage) {
    o.start <= r.at <= o.end
  }

  /** The record is about the kind of thing that the event names. */
  predicate OfKind(r: Record, o: Outage) {
    (Lower(r.entityType) == "country" && o.locations != []) || (Lower(r.entityType) == "asn" && o.asns != [])
  }

  ghost predicate NamesSource(o: Outage, word: string) {
    exists i :: 0 <= i < |o.datasources| && word in Tokenize(o.datasources[i])
  }

  /** One of the event's data sources has a word of the record's source or signal. */
  ghost predicate FromSource(r: Record, o: Outage) {
    exists word :: NamesSource(o, word) && (word in Tokenize(r.source) || word in Tokenize(r.signalType))
  }

  ghost function Extras(r: Record, o: Outage): nat {
    (if OfKind(r, o) then 1 else 0) + (if FromSource(r, o) then 1 else 0)
  }

  /** Being on a named entity outweighs being in the event's time, which outweighs all else; a record must be one of
      the two, and its kind and its source only break ties. */
  ghost predicate Precedes(a: Record, b: Record, o: Outage, useTime: bool) {
    if OnEntity(a, o) != OnEntity(b, o) then OnEntity(a, o)
    else if useTime && InTime(a, o) != InTime(b, o) then InTime(a, o)
    else Extras(a, o) > Extras(b, o)
  }

  lemma {:induction false} AllWordsAre(parts: seq<string>, word: string)
    ensures word in AllWords(parts) <==> exists i :: 0 <= i < |parts| && word in Tokenize(parts[i])
  {
    hide Tokenize;
    if parts != [] {
      AllWordsAre(parts[1..], word);
      if word in AllWords(parts[1..]) {
        var i :| 0 <= i < |parts[1..]| && word in Tokenize(parts[1..][i]);
        assert word in Tokenize(parts[i + 1]);
      }
      if i :| 0 <= i < |parts| && word in Tokenize(parts[i]) && i > 0 {
        assert word in Tokenize(parts[1..][i - 1]);
      }
    }
  }

  lemma HintsAre(o: Outage)
    ensures forall word :: word in QueryOf(o).hints <==> NamesSource(o, word)
  {
    hide Tokenize, Replace, Lower, AllWords;
    var sources := seq(|o.datasources|, i requires 0 <= i < |o.datasources| => Replace(o.datasources[i], '-'));
    TokenizeJoin(sources);
    forall i | 0 <= i < |sources| ensures Tokenize(sources[i]) == Tokenize(o.datasources[i]) {
      SeparatorsAreBlanks(o.datasources[i], '-');
    }
    forall word ensures word in AllWords(sources) <==> NamesSource(o, word) {
      AllWordsAre(sources, word);
      if i :| 0 <= i < |o.datasources| && word in Tokenize(o.datasources[i]) {
        assert word in Tokenize(sources[i]);
      }
    }
    assert QueryOf(o).hints == TokenSet(AllWords(sources));
  }

  lemma SourcesAre(r: Record)
    ensures forall word :: word in EvidenceOf(r).profile.sources <==> word in Tokenize(r.source) || word in Tokenize(r.signalType)
  {
    hide Tokenize, Replace, Lower;
    SeparatorsAreBlanks(r.source + " " + r.signalType, '-');
    TokenizeSplits(r.source, r.signalType);
  }

  lemma Meets(a: set<string>, b: set<string>)
    ensures a * b != {} <==> exists word :: word in a && word in b
  {
    if a * b != {} {
      HasMember(a * b);
    }
    if word :| word in a && word in b {
      assert word in a * b;
    }
  }

  lemma ProfileMeans(r: Record, o: Outage)
    ensures EntityMatch(QueryOf(o), EvidenceOf(r).profile) <==> OnEntity(r, o)
    ensures EvidenceOf(r).profile.at == r.at && QueryOf(o).start == o.start && QueryOf(o).end == o.end
    ensures EvidenceOf(r).profile.kind in QueryOf(o).kinds <==> OfKind(r, o)
    ensures QueryOf(o).hints * EvidenceOf(r).profile.sources != {} <==> FromSource(r, o)
    ensures OnEntity(r, o) ==> OfKind(r, o)
  {
    hide Lower, Tokenize, Replace, TokenSet, NamesSource;
    Meets(QueryOf(o).hints, EvidenceOf(r).profile.sources);
    HintsAre(o);
    SourcesAre(r);
  }

  /** The scores order any two records that are candidates as said; no others score. */
  lemma StructuredOrder(a: Record, b: Record, o: Outage, useTime: bool)
    ensures ByProfile(QueryOf(o), useTime)(EvidenceOf(a)) > 0.0 <==> OnEntity(a, o) || (useTime && InTime(a, o))
    ensures ByProfile(QueryOf(o), useTime)(EvidenceOf(a)) > 0.0 && ByProfile(QueryOf(o), useTime)(EvidenceOf(b)) > 0.0 ==>
      (ByProfile(QueryOf(o), useTime)(EvidenceOf(a)) > ByProfile(QueryOf(o), useTime)(EvidenceOf(b)) <==> Precedes(a, b, o, useTime))
  {
    hide QueryOf, EvidenceOf, OnEntity, OfKind, FromSource, EntityMatch;
    ProfileMeans(a, o);
    ProfileMeans(b, o);
  }

  /** The structured ranking of a pool of records, in these terms. */
  lemma StructuredRankingIs(records: seq<Record>, o: Outage, useTime: bool, i: nat, j: nat, m: nat, n: nat)
    requires UniqueIds(PoolOf(records)) && i < |records| && j < |records|
    requires m < n < |Ranking(PoolOf(records), ByProfile(QueryOf(o), useTime))|
    requires Ranking(PoolOf(records), ByProfile(QueryOf(o), useTime))[m] == records[i].docId
    requires Ranking(PoolOf(records), ByProfile(QueryOf(o), useTime))[n] == records[j].docId
    ensures Precedes(records[i], records[j], o, useTime)
            || (!Precedes(records[j], records[i], o, useTime) && StringLe(records[i].docId, records[j].docId))
  {
    hide QueryOf, Precedes, StringLe, Ranking, ByProfile, Tokenize, Lower, Replace, UniqueIds;
    var pool := PoolOf(records);
    RankingDescends(pool, ByProfile(QueryOf(o), useTime));
    assert pool[i] == EvidenceOf(records[i]) && pool[j] == EvidenceOf(records[j]);
    assert pool[i].docId in Ranking(pool, ByProfile(QueryOf(o), useTime)) && pool[j].docId in Ranking(pool, ByProfile(QueryOf(o), useTime));
    StructuredOrder(records[i], records[j], o, useTime);
    StructuredOrder(records[j], records[i], o, useTime);
  }

  // ---- the retriever by shared words ----

  lemma SharesOrder(x: nat, y: nat, n: nat)
    requires n > 0
    ensures x as real / n as real > y as real / n as real <==> x > y
  {
    var p := y as real / n as real;
    QuotientOrder(y as real, n as real, p);
    QuotientOrder(x as real, n as real, p);
  }

  /** Only the number of distinct query words found decides. */
  lemma OverlapOrder(terms: set<string>, a: set<string>, b: set<string>)
    ensures OverlapShare(terms, a) > OverlapShare(terms, b) <==> |terms * a| > |terms * b|
  {
    if terms == {} {
      assert terms * a == {} == terms * b;
    } else {
      var x, y, n := |terms * a|, |terms * b|, |terms|;
      SharesOrder(x, y, n);
    }
  }

  // ---- BM25 ----

  ghost function HeldBy(pool: seq<Evidence>, word: string): set<int> {
    set i | 0 <= i < |pool| && word in pool[i].tokens
  }

  lemma {:induction false} HoldersAreCounted(pool: seq<Evidence>, word: string)
    ensures Holders(pool, word) == |HeldBy(pool, word)|
  {
    if pool != [] {
      var n := |pool| - 1;
      HoldersAreCounted(pool[..n], word);
      assert HeldBy(pool, word) == HeldBy(pool[..n], word) + if word in pool[n].tokens then {n} else {};
    }
  }

  /** The inverse document frequency of a word held by h of n documents is the logarithm of (n + 1) / (h + 1/2). */
  lemma IdfIs(n: nat, h: nat, log: real -> real)
    requires h <= n
    ensures IdfOf(n, h, log) == log((n as real + 1.0) / (h as real + 0.5))
  {
    var y := h as real + 0.5;
    var q, x := (n - h) as real + 0.5, ((n - h) as real + 0.5) / y;
    QuotientOrder(q, y, x);
    assert (1.0 + x) * y == y + x * y;
    QuotientOrder(n as real + 1.0, y, 1.0 + x);
  }

  /** The published formula with its settings 1.5 and 0.75, without fractions: a word that occurs f times among the
      len words of a document, the average document being avg long, scores s. */
  ghost predicate FormulaHolds(s: real, f: real, len: real, avg: real, idf: real) {
    s * (f * avg + 0.375 * avg + 1.125 * len) == 2.5 * f * avg * idf
  }

  lemma NormTimes(avg: real, len: nat)
    requires avg > 0.0
    ensures Norm(avg, len) * avg == 0.375 * avg + 1.125 * len as real
  {
    var share := len as real / avg;
    QuotientOrder(len as real, avg, share);
    assert Norm(avg, len) == 0.375 + 1.125 * share;
    assert (1.125 * share) * avg == 1.125 * (share * avg);
  }

  lemma ScoreTimes(idf: real, count: nat, norm: real)
    requires count > 0 && norm > 0.0
    ensures TermScore(idf, count, norm) * (count as real + norm) == idf * (count as real * 2.5)
  {
    QuotientOrder(idf * (count as real * 2.5), count as real + norm, TermScore(idf, count, norm));
  }

  lemma Cleared(s: real, f: real, norm: real, len: real, avg: real, idf: real)
    requires norm * avg == 0.375 * avg + 1.125 * len && s * (f + norm) == idf * (f * 2.5)
    ensures FormulaHolds(s, f, len, avg, idf)
  {
    assert (f + norm) * avg == f * avg + norm * avg;
    assert s * ((f + norm) * avg) == (s * (f + norm)) * avg;
    assert (idf * (f * 2.5)) * avg == 2.5 * f * avg * idf;
  }

  lemma TermHolds(idf: real, count: nat, avg: real, len: nat)
    requires count > 0 && avg > 0.0
    ensures FormulaHolds(TermScore(idf, count, Norm(avg, len)), count as real, len as real, avg, idf)
  {
    hide FormulaHolds, TermScore, Norm;
    NormTimes(avg, len);
    ScoreTimes(idf, count, Norm(avg, len));
    Cleared(TermScore(idf, count, Norm(avg, len)), count as real, Norm(avg, len), len as real, avg, idf);
  }

  lemma AverageTimes(pool: seq<Evidence>)
    requires pool != []
    ensures AverageLength(pool) * |pool| as real == TotalLength(pool) as real
  {
    hide TotalLength;
    QuotientOrder(TotalLength(pool) as real, |pool| as real, AverageLength(pool));
  }

  lemma OneWordScore(pool: seq<Evidence>, log: real -> real, word: string, tokens: seq<string>)
    ensures Score(pool, log, [word], tokens) == TermScore(Idf(pool, log, word), multiset(tokens)[word], Norm(AverageLength(pool), |tokens|))
  {
    hide TermScore, Idf, Norm, AverageLength;
    assert [word][..0] == [];
  }

  /** What one word of the query scores in a document of the pool that has it. */
  lemma WordScores(pool: seq<Evidence>, log: real -> real, word: string, i: nat)
    requires i < |pool| && word in pool[i].tokens
    ensures AverageLength(pool) > 0.0 && AverageLength(pool) * |pool| as real == TotalLength(pool) as real
    ensures FormulaHolds(Score(pool, log, [word], pool[i].tokens), multiset(pool[i].tokens)[word] as real, |pool[i].tokens| as real,
                         AverageLength(pool), log((|pool| as real + 1.0) / (|HeldBy(pool, word)| as real + 0.5)))
  {
    hide FormulaHolds, IdfOf, TermScore, Norm, AverageLength, TotalLength, Holders, HeldBy, Score;
    var avg, tokens := AverageLength(pool), pool[i].tokens;
    SomeAverage(pool, i);
    AverageTimes(pool);
    HoldersAreCounted(pool, word);
    IdfIs(|pool|, Holders(pool, word), log);
    var idf := Idf(pool, log, word);
    assert idf == IdfOf(|pool|, Holders(pool, word), log);
    var count := multiset(tokens)[word];
    assert word in multiset(tokens) && count > 0;
    OneWordScore(pool, log, word, tokens);
    TermHolds(idf, count, avg, |tokens|);
  }

  /** A query scores the sum of its parts, so what its words score, in any order and each as often as it occurs. */
  lemma {:induction false} ScoreAddsUp(pool: seq<Evidence>, log: real -> real, a: seq<string>, b: seq<string>, tokens: seq<string>)
    ensures Score(pool, log, a + b, tokens) == Score(pool, log, a, tokens) + Score(pool, log, b, tokens)
  {
    hide TermScore, Idf, Norm, AverageLength;
    if b == [] {
      assert a + b == a;
    } else {
      ScoreAddsUp(pool, log, a, b[..|b| - 1], tokens);
      assert (a + b)[..|a + b| - 1] == a + b[..|b| - 1];
    }
  }

  // ---- fusion ----

  /** What a list gives a document by its place, counted from one. */
  ghost predicate Gives(ranking: seq<string>, id: string, gain: real) {
    if id in ranking then exists p :: 0 <= p < |ranking| && ranking[p] == id && gain == 1.0 / (61 + p) as real else gain == 0.0
  }

  lemma GainIsGiven(ranking: seq<string>, id: string)
    requires Distinct(ranking)
    ensures Gives(ranking, id, Gain(ranking, id))
  {
    if id in ranking {
      var p :| 0 <= p < |ranking| && ranking[p] == id;
      GainAt(ranking, p);
    } else {
      GainAbsent(ranking, id);
    }
  }

  ghost predicate SumsDescend(x: seq<string>, y: seq<string>, a: string, b: string) {
    || Gain(x, a) + Gain(y, a) > Gain(x, b) + Gain(y, b)
    || (Gain(x, a) + Gain(y, a) == Gain(x, b) + Gain(y, b) && StringLe(a, b))
  }

  lemma SumsMean(x: seq<string>, y: seq<string>, g: Hit, h: Hit)
    requires HitLe(g, h) && g.score == Gain(x, g.id) + Gain(y, g.id) && h.score == Gain(x, h.id) + Gain(y, h.id)
    ensures SumsDescend(x, y, g.id, h.id)
  {
    hide Gain, StringLe;
  }

  lemma InEither(x: seq<string>, y: seq<string>, id: string)
    ensures InSome([x, y], id) <==> id in x || id in y
  {
    assert [x, y][0] == x && [x, y][1] == y;
  }

  /** Of two lists: each document of either comes once, the higher sum first and among equal sums the smaller id. */
  lemma FusionDescends(x: seq<string>, y: seq<string>, k: nat)
    requires Distinct(x) && Distinct(y)
    ensures forall id :: id in Fuse([x, y], k) ==> id in x || id in y
    ensures |Fuse([x, y], k)| < k ==> forall id :: id in x || id in y ==> id in Fuse([x, y], k)
    ensures forall id :: Gives(x, id, Gain(x, id)) && Gives(y, id, Gain(y, id))
    ensures forall m, n :: 0 <= m < n < |Fuse([x, y], k)| ==> SumsDescend(x, y, Fuse([x, y], k)[m], Fuse([x, y], k)[n])
  {
    hide Distinct, Gives, Gain, Sort, SumsDescend, StringLe, Take, HitIds, Fuse, Seen, FusedScore, SortedBy, InSome;
    forall id ensures Gives(x, id, Gain(x, id)) && Gives(y, id, Gain(y, id)) {
      GainIsGiven(x, id);
      GainIsGiven(y, id);
    }
    var hits := Items([x, y]);
    var sorted := Sort(hits, HitLe);
    FuseIs([x, y], k);
    TakenIds(sorted, k);
    SortMembers(hits, HitLe);
    HitOrder();
    SortSorts(hits, HitLe);
    SeenFacts([x, y]);
    ItemsAre([x, y]);
    var r := Fuse([x, y], k);
    forall id ensures InSome([x, y], id) <==> id in x || id in y {
      InEither(x, y, id);
    }
    forall id | id in r ensures id in x || id in y {
      var n :| 0 <= n < |r| && r[n] == id;
      assert sorted[n] in hits;
    }
    if |r| < k {
      forall id | id in x || id in y ensures id in r {
        assert Hit(FusedScore([x, y], id), id) in sorted;
        var n :| 0 <= n < |sorted| && sorted[n] == Hit(FusedScore([x, y], id), id);
        assert r[n] == id;
      }
    }
    forall m, n | 0 <= m < n < |r| ensures SumsDescend(x, y, r[m], r[n]) {
      assert sorted[m] in hits && sorted[n] in hits;
      SortedAt(sorted, m, n);
      ScoreOfTwo(x, y, r[m]);
      ScoreOfTwo(x, y, r[n]);
      SumsMean(x, y, sorted[m], sorted[n]);
    }
  }
}
