/** Okapi BM25 over a pool of evidence (core/memory/bm25.py). The logarithm in the inverse document frequency is a
    parameter; of it only the sign is used. */
module Bm25 {
  import opened Basics
  import opened Retrieval

  const K1 := 1.5

  const B := 0.75

  ghost predicate IsLog(log: real -> real) {
    forall x :: x > 1.0 ==> log(x) > 0.0
  }

  // ---- the formula ----

  /** How many documents hold a term. */
  function Holders(pool: seq<Evidence>, term: string): (n: nat)
    ensures n <= |pool|
    ensures n > 0 <==> exists i :: 0 <= i < |pool| && term in pool[i].tokens
  {
    if pool == [] then 0
    else Holders(pool[..|pool| - 1], term) + if term in pool[|pool| - 1].tokens then 1 else 0
  }

  function TotalLength(pool: seq<Evidence>): nat {
    if pool == [] then 0 else TotalLength(pool[..|pool| - 1]) + |pool[|pool| - 1].tokens|
  }

  function AverageLength(pool: seq<Evidence>): (a: real)
    ensures a >= 0.0
  {
    if pool == [] then 0.0 else TotalLength(pool) as real / |pool| as real
  }

  function IdfOf(n: nat, holders: nat, log: real -> real): real
    requires holders <= n
  {
    log(1.0 + ((n - holders) as real + 0.5) / (holders as real + 0.5))
  }

  function Idf(pool: seq<Evidence>, log: real -> real, term: string): real {
    var holders := Holders(pool, term);
    if holders == 0 then 0.0 else IdfOf(|pool|, holders, log)
  }

  /** The length correction in the denominator. */
  function Norm(average: real, length: nat): (r: real)
    requires average >= 0.0
    ensures r > 0.0
  {
    K1 * (1.0 - B + B * (if average == 0.0 then 0.0 else length as real / average))
  }

  function TermScore(idf: real, count: nat, norm: real): real
    requires norm > 0.0
  {
    if count == 0 then 0.0 else idf * (count as real * (K1 + 1.0)) / (count as real + norm)
  }

  /** The score of a document with the given tokens: a sum over the query's words, repeated ones included. */
  function Score(pool: seq<Evidence>, log: real -> real, lex: seq<string>, tokens: seq<string>): real {
    if lex == [] then 0.0
    else
      var term := lex[|lex| - 1];
      Score(pool, log, lex[..|lex| - 1], tokens)
      + TermScore(Idf(pool, log, term), multiset(tokens)[term], Norm(AverageLength(pool), |tokens|))
  }

  function ByTerms(pool: seq<Evidence>, log: real -> real, lex: seq<string>): Evidence -> real {
    (e: Evidence) => Score(pool, log, lex, e.tokens)
  }

  // ---- the index ----

  datatype Index = Index(docFreqs: map<string, multiset<string>>, docLen: map<string, nat>, average: real, idf: map<string, real>)

  ghost predicate DocsCounted(docFreqs: map<string, multiset<string>>, docLen: map<string, nat>, pool: seq<Evidence>) {
    && docFreqs.Keys == IdSet(pool) && docLen.Keys == IdSet(pool)
    && forall i :: 0 <= i < |pool| ==>
         && pool[i].docId in IdSet(pool)
         && docFreqs[pool[i].docId] == multiset(pool[i].tokens) && docLen[pool[i].docId] == |pool[i].tokens|
  }

  function Count(df: map<string, nat>, term: string): nat {
    if term in df then df[term] else 0
  }

  function IdfIn(index: Index, term: string): real {
    if term in index.idf then index.idf[term] else 0.0
  }

  ghost predicate Fitted(index: Index, pool: seq<Evidence>, log: real -> real) {
    && DocsCounted(index.docFreqs, index.docLen, pool) && index.average == AverageLength(pool)
    && forall term :: IdfIn(index, term) == Idf(pool, log, term)
  }

  lemma NothingCounted()
    ensures DocsCounted(map[], map[], [])
  {
  }

  lemma OneMoreCounted(docFreqs: map<string, multiset<string>>, docLen: map<string, nat>, pool: seq<Evidence>, i: nat)
    requires UniqueIds(pool) && i < |pool| && DocsCounted(docFreqs, docLen, pool[..i])
    ensures var e := pool[i];
      DocsCounted(docFreqs[e.docId := multiset(e.tokens)], docLen[e.docId := |e.tokens|], pool[..i + 1])
  {
    var e := pool[i];
    assert pool[..i + 1] == pool[..i] + [e];
    IdSetMore(pool[..i], e);
  }

  method CountDocuments(pool: seq<Evidence>) returns (docFreqs: map<string, multiset<string>>, docLen: map<string, nat>, total: nat)
    requires UniqueIds(pool)
    ensures DocsCounted(docFreqs, docLen, pool) && total == TotalLength(pool)
  {
    hide DocsCounted, UniqueIds;
    docFreqs, docLen, total := map[], map[], 0;
    NothingCounted();
    for i := 0 to |pool|
      invariant DocsCounted(docFreqs, docLen, pool[..i]) && total == TotalLength(pool[..i])
    {
      var e := pool[i];
      assert pool[..i + 1][..i] == pool[..i];
      OneMoreCounted(docFreqs, docLen, pool, i);
      docFreqs, docLen := docFreqs[e.docId := multiset(e.tokens)], docLen[e.docId := |e.tokens|];
      total := total + |e.tokens|;
    }
    assert pool[..|pool|] == pool;
  }

  method CountHolders(pool: seq<Evidence>) returns (df: map<string, nat>)
    ensures forall term :: term in df ==> df[term] <= |pool|
    ensures forall term :: (term in df <==> Holders(pool, term) > 0) && Count(df, term) == Holders(pool, term)
  {
    df := map[];
    for i := 0 to |pool|
      invariant forall term :: (term in df <==> Holders(pool[..i], term) > 0) && Count(df, term) == Holders(pool[..i], term)
    {
      assert pool[..i + 1][..i] == pool[..i];
      var terms := TokenSet(pool[i].tokens);
      df := map term | term in df.Keys + terms :: Count(df, term) + if term in terms then 1 else 0;
    }
    assert pool[..|pool|] == pool;
    assert forall term :: term in df ==> df[term] == Count(df, term);
  }

  method Fit(pool: seq<Evidence>, log: real -> real) returns (index: Index)
    requires UniqueIds(pool)
    ensures Fitted(index, pool, log)
  {
    hide DocsCounted, UniqueIds, IdfOf, Holders, TotalLength;
    var docFreqs, docLen, total := CountDocuments(pool);
    var average := if pool == [] then 0.0 else total as real / |pool| as real;
    var df := CountHolders(pool);
    var idf := map term | term in df :: IdfOf(|pool|, df[term], log);
    index := Index(docFreqs, docLen, average, idf);
  }

  function IndexScore(index: Index, lex: seq<string>, id: string): real
    requires id in index.docFreqs && id in index.docLen && index.average >= 0.0
  {
    if lex == [] then 0.0
    else
      var term := lex[|lex| - 1];
      IndexScore(index, lex[..|lex| - 1], id)
      + TermScore(IdfIn(index, term), index.docFreqs[id][term], Norm(index.average, index.docLen[id]))
  }

  lemma NoCountNoScore(idf: real, norm: real)
    requires norm > 0.0
    ensures TermScore(idf, 0, norm) == 0.0
  {
  }

  method ScoreDocument(index: Index, ghost pool: seq<Evidence>, ghost log: real -> real, lex: seq<string>, id: string, ghost i: nat)
    returns (total: real)
    requires Fitted(index, pool, log) && i < |pool| && pool[i].docId == id
    ensures total == Score(pool, log, lex, pool[i].tokens)
  {
    hide Norm, TermScore, IdSet;
    var freqs := index.docFreqs[id];
    var norm := Norm(index.average, index.docLen[id]);
    total := 0.0;
    for n := 0 to |lex|
      invariant total == Score(pool, log, lex[..n], pool[i].tokens)
    {
      assert lex[..n + 1][..n] == lex[..n];
      var term := lex[n];
      NoCountNoScore(IdfIn(index, term), norm);
      if freqs[term] == 0 {
        continue;
      }
      total := total + TermScore(IdfIn(index, term), freqs[term], norm);
    }
    assert lex[..|lex|] == lex;
  }

  function ById(index: Index, lex: seq<string>): string -> real {
    (id: string) =>
      if id in index.docFreqs && id in index.docLen && index.average >= 0.0 then IndexScore(index, lex, id) else 0.0
  }

  lemma {:induction false} IndexScores(index: Index, pool: seq<Evidence>, log: real -> real, lex: seq<string>, i: nat)
    requires Fitted(index, pool, log) && i < |pool|
    ensures ById(index, lex)(pool[i].docId) == Score(pool, log, lex, pool[i].tokens)
  {
    hide Norm, TermScore, Idf, IdfIn;
    if lex != [] {
      IndexScores(index, pool, log, lex[..|lex| - 1], i);
    }
  }

  // ---- what the score says ----

  lemma IdfIsPositive(n: nat, holders: nat, log: real -> real)
    requires IsLog(log) && holders <= n
    ensures IdfOf(n, holders, log) > 0.0
  {
    var x := ((n - holders) as real + 0.5) / (holders as real + 0.5);
    assert x * (holders as real + 0.5) == (n - holders) as real + 0.5;
    assert x > 0.0;
  }

  lemma PositiveScore(idf: real, count: nat, norm: real)
    requires idf > 0.0 && norm > 0.0 && count > 0
    ensures TermScore(idf, count, norm) > 0.0
  {
    var x, y := count as real * (K1 + 1.0), count as real + norm;
    assert idf * x > 0.0;
    assert (idf * x) / y > 0.0;
  }

  /** A word scores in a document of the pool if and only if it occurs there. */
  lemma TermScores(pool: seq<Evidence>, log: real -> real, term: string, i: nat)
    requires IsLog(log) && i < |pool|
    ensures var s := TermScore(Idf(pool, log, term), multiset(pool[i].tokens)[term], Norm(AverageLength(pool), |pool[i].tokens|));
      if term in pool[i].tokens then s > 0.0 else s == 0.0
  {
    hide IsLog, IdfOf, Norm, TermScore, AverageLength;
    var norm := Norm(AverageLength(pool), |pool[i].tokens|);
    if term in pool[i].tokens {
      IdfIsPositive(|pool|, Holders(pool, term), log);
      PositiveScore(Idf(pool, log, term), multiset(pool[i].tokens)[term], norm);
    } else {
      assert term !in multiset(pool[i].tokens);
      NoCountNoScore(Idf(pool, log, term), norm);
    }
  }

  lemma NoWordsShared(tokens: seq<string>)
    ensures !Shares(TokenSet([]), TokenSet(tokens))
  {
    assert TokenSet([]) == {};
  }

  lemma SharesLast(lex: seq<string>, term: string, tokens: seq<string>)
    ensures Shares(TokenSet(lex + [term]), TokenSet(tokens)) <==> Shares(TokenSet(lex), TokenSet(tokens)) || term in tokens
  {
    assert TokenSet(lex + [term]) == TokenSet(lex) + {term};
    SharesMore(TokenSet(lex), term);
  }

  /** A document of the pool scores if and only if it shares a word with the query; otherwise its score is zero. */
  lemma {:induction false} ScoredIffShared(pool: seq<Evidence>, log: real -> real, lex: seq<string>, i: nat)
    requires IsLog(log) && i < |pool|
    ensures var s := Score(pool, log, lex, pool[i].tokens);
      if Shares(TokenSet(lex), TokenSet(pool[i].tokens)) then s > 0.0 else s == 0.0
  {
    hide IsLog, Idf, Norm, TermScore, AverageLength, TokenSet;
    if lex == [] {
      NoWordsShared(pool[i].tokens);
    } else {
      var init, term := lex[..|lex| - 1], lex[|lex| - 1];
      ScoredIffShared(pool, log, init, i);
      TermScores(pool, log, term, i);
      SharesLast(init, term, pool[i].tokens);
      assert lex == init + [term];
    }
  }

  lemma {:induction false} SomeText(pool: seq<Evidence>, j: nat)
    requires j < |pool|
    ensures |pool[j].tokens| <= TotalLength(pool)
  {
    if j < |pool| - 1 {
      SomeText(pool[..|pool| - 1], j);
    }
  }

  lemma SomeAverage(pool: seq<Evidence>, j: nat)
    requires j < |pool| && pool[j].tokens != []
    ensures AverageLength(pool) > 0.0
  {
    SomeText(pool, j);
    QuotientOrder(TotalLength(pool) as real, |pool| as real, 0.0);
  }

  /** A longer document has a larger correction, if there is any text at all. */
  lemma LongerNorm(pool: seq<Evidence>, j: nat, length: nat)
    requires j < |pool| && length < |pool[j].tokens|
    ensures Norm(AverageLength(pool), length) < Norm(AverageLength(pool), |pool[j].tokens|)
  {
    hide AverageLength;
    SomeAverage(pool, j);
    var average := AverageLength(pool);
    var a, b := length as real / average, |pool[j].tokens| as real / average;
    assert a * average == length as real && b * average == |pool[j].tokens| as real;
    ScaleOrder(a, b, average);
  }

  lemma Denominators(x: real, y: real, z: real)
    requires x > 0.0 && 0.0 < y < z
    ensures x / y > x / z
  {
    var p, q := x / y, x / z;
    assert p * y == x && q * z == x;
    assert q > 0.0;
    assert q * y < q * z;
  }

  lemma NormLowers(idf: real, count: nat, a: real, b: real)
    requires idf > 0.0 && count > 0 && 0.0 < a < b
    ensures TermScore(idf, count, a) > TermScore(idf, count, b)
  {
    var x := idf * (count as real * (K1 + 1.0));
    assert x > 0.0;
    Denominators(x, count as real + a, count as real + b);
  }

  /** Of two documents with the same number of each of the query's words, the shorter one scores higher. */
  lemma {:induction false} ShorterScoresHigher(pool: seq<Evidence>, log: real -> real, lex: seq<string>, i: nat, j: nat)
    requires IsLog(log) && i < |pool| && j < |pool| && |pool[i].tokens| < |pool[j].tokens|
    requires forall t :: t in lex ==> multiset(pool[i].tokens)[t] == multiset(pool[j].tokens)[t]
    ensures var a, b := Score(pool, log, lex, pool[i].tokens), Score(pool, log, lex, pool[j].tokens);
      a >= b && (Shares(TokenSet(lex), TokenSet(pool[i].tokens)) ==> a > b)
  {
    hide IsLog, IdfOf, Norm, TermScore, AverageLength, TokenSet;
    if lex == [] {
      NoWordsShared(pool[i].tokens);
    } else {
      var init, term := lex[..|lex| - 1], lex[|lex| - 1];
      ShorterScoresHigher(pool, log, init, i, j);
      SharesLast(init, term, pool[i].tokens);
      assert lex == init + [term];
      assert term in pool[i].tokens <==> multiset(pool[i].tokens)[term] > 0;
      var count := multiset(pool[i].tokens)[term];
      LongerNorm(pool, j, |pool[i].tokens|);
      var a, b := Norm(AverageLength(pool), |pool[i].tokens|), Norm(AverageLength(pool), |pool[j].tokens|);
      if count > 0 {
        IdfIsPositive(|pool|, Holders(pool, term), log);
        NormLowers(Idf(pool, log, term), count, a, b);
      } else {
        NoCountNoScore(Idf(pool, log, term), a);
        NoCountNoScore(Idf(pool, log, term), b);
      }
    }
  }

  /** What is missing from the weight. */
  lemma ShareOf(w: real, x: real, norm: real)
    requires w > 0.0 && x >= 0.0 && norm > 0.0
    ensures (w * x) / (x + norm) == w - (w * norm) / (x + norm)
    ensures (w * norm) / (x + norm) > 0.0
  {
    var p, q := (w * x) / (x + norm), (w * norm) / (x + norm);
    assert p * (x + norm) == w * x && q * (x + norm) == w * norm;
    assert (p + q) * (x + norm) == w * (x + norm);
    assert w * norm > 0.0;
  }

  /** Repeating a word raises its score, but never to two and a half times its weight. */
  lemma ScoreSaturates(idf: real, count: nat, norm: real)
    requires idf > 0.0 && norm > 0.0
    ensures TermScore(idf, count, norm) < TermScore(idf, count + 1, norm) < idf * 2.5
  {
    var w := idf * (K1 + 1.0);
    assert w > 0.0;
    ShareOf(w, count as real, norm);
    ShareOf(w, count as real + 1.0, norm);
    Denominators(w * norm, count as real + norm, count as real + 1.0 + norm);
    assert idf * (count as real * (K1 + 1.0)) == w * count as real;
    assert idf * ((count + 1) as real * (K1 + 1.0)) == w * (count as real + 1.0);
    if count == 0 {
      assert w * 0.0 == 0.0;
    }
  }

  // ---- retrieval by this score ----

  lemma {:induction false} SameHits(pool: seq<Evidence>, a: Evidence -> real, b: Evidence -> real)
    requires forall i :: 0 <= i < |pool| ==> a(pool[i]) == b(pool[i])
    ensures Hits(pool, a) == Hits(pool, b)
  {
    if pool != [] {
      SameHits(pool[..|pool| - 1], a, b);
    }
  }

  /** The index scores only documents that share a word, and ranks the pool as the formula does. */
  lemma IndexRanks(index: Index, pool: seq<Evidence>, log: real -> real, q: Query)
    requires Fitted(index, pool, log) && IsLog(log)
    ensures SharedIfScored(pool, q, ByBm25(ById(index, q.lex)))
    ensures Ranking(pool, ByBm25(ById(index, q.lex))) == Ranking(pool, ByTerms(pool, log, q.lex))
  {
    hide Fitted, IsLog, Score, Shares, TokenSet, ById, Hits;
    forall i | 0 <= i < |pool|
      ensures ById(index, q.lex)(pool[i].docId) == Score(pool, log, q.lex, pool[i].tokens)
      ensures Score(pool, log, q.lex, pool[i].tokens) > 0.0 ==> Shares(TokenSet(q.lex), TokenSet(pool[i].tokens))
    {
      IndexScores(index, pool, log, q.lex, i);
      ScoredIffShared(pool, log, q.lex, i);
    }
    SameHits(pool, ByBm25(ById(index, q.lex)), ByTerms(pool, log, q.lex));
  }

  /** Scoring only the documents that share a word is exact for BM25. */
  method RetrieveByTerms(c: Corpus, ghost pool: seq<Evidence>, q: Query, k: int, index: Index, ghost log: real -> real)
    returns (ranked: seq<string>)
    requires Indexed(c, pool) && Fitted(index, pool, log) && IsLog(log)
    ensures ranked == FullScan(pool, ByTerms(pool, log, q.lex), k)
  {
    hide Indexed, Fitted, IsLog, SharedIfScored, Ranking, ByBm25, ByTerms, ById;
    IndexRanks(index, pool, log, q);
    ranked := RetrieveBm25(c, pool, q, k, ById(index, q.lex));
  }
}
