/** The words the lexical retrievers see: evidence records and outage events as documents and queries
    (core/eval/ioda_retrieval.py, core/memory/bm25.py), without query expansion. */
module EvidenceText {
  import opened Basics
  import opened Retrieval
  import TokenText

  // ---- words ----

  const STOP: set<string> := {
    "the", "a", "an", "and", "or", "is", "are", "was", "were", "to", "of", "in", "on", "for",
    "with", "at", "by", "from", "into", "over", "under", "this", "that", "which", "what", "why",
    "how", "shows", "show", "appear", "appears", "such", "as", "its"
  }

  predicate IsWordChar(c: char) {
    'a' <= c <= 'z' || '0' <= c <= '9'
  }

  function Lower(t: string): (l: string)
    ensures |l| == |t|
  {
    seq(|t|, i requires 0 <= i < |t| => if 'A' <= t[i] <= 'Z' then t[i] + 32 as char else t[i])
  }

  function Closed(open: string): seq<string> {
    if open == "" then [] else [open]
  }

  /** The maximal runs of letters and digits, given the run read so far. */
  function Runs(t: string, open: string): seq<string>
    decreases |t|
  {
    if t == "" then Closed(open)
    else if IsWordChar(t[0]) then Runs(t[1..], open + [t[0]])
    else Closed(open) + Runs(t[1..], "")
  }

  predicate IsKept(word: string) {
    |word| > 1 && word !in STOP
  }

  function Tokenize(t: string): seq<string> {
    Filter(IsKept, Runs(Lower(t), ""))
  }

  function Replace(t: string, c: char): (u: string)
    ensures |u| == |t|
  {
    seq(|t|, i requires 0 <= i < |t| => if t[i] == c then ' ' else t[i])
  }

  lemma LowerSplits(a: string, b: string)
    ensures Lower(a + b) == Lower(a) + Lower(b)
  {
  }

  lemma {:induction false} RunsSplit(a: string, b: string, open: string)
    ensures Runs(a + " " + b, open) == Runs(a, open) + Runs(b, "")
    decreases |a|
  {
    var t := a + " " + b;
    if a == "" {
      assert t[0] == ' ' && t[1..] == b;
    } else {
      assert t[0] == a[0] && t[1..] == a[1..] + " " + b;
      if IsWordChar(a[0]) {
        RunsSplit(a[1..], b, open + [a[0]]);
      } else {
        RunsSplit(a[1..], b, "");
      }
    }
  }

  lemma TokenizeSplits(a: string, b: string)
    ensures Tokenize(a + " " + b) == Tokenize(a) + Tokenize(b)
  {
    hide IsKept, Runs;
    LowerSplits(a + " ", b);
    LowerSplits(a, " ");
    assert Lower(" ") == " ";
    RunsSplit(Lower(a), Lower(b), "");
    FilterSplits(IsKept, Runs(Lower(a), ""), Runs(Lower(b), ""));
  }

  function AllWords(parts: seq<string>): seq<string> {
    if parts == [] then [] else Tokenize(parts[0]) + AllWords(parts[1..])
  }

  lemma NothingTokenized()
    ensures Tokenize("") == []
  {
    assert Lower("") == "";
  }

  /** Joining with blanks joins the words. */
  lemma {:induction false} TokenizeJoin(parts: seq<string>)
    ensures Tokenize(TokenText.Join(" ", parts)) == AllWords(parts)
  {
    hide Tokenize;
    if |parts| == 1 {
      assert parts[1..] == [];
    } else if parts != [] {
      TokenizeJoin(parts[1..]);
      TokenizeSplits(parts[0], TokenText.Join(" ", parts[1..]));
    } else {
      NothingTokenized();
    }
  }

  lemma NoWords()
    ensures AllWords([]) == []
  {
  }

  lemma AllWordsFirst(parts: seq<string>)
    requires parts != []
    ensures AllWords(parts) == Tokenize(parts[0]) + AllWords(parts[1..])
  {
    hide Tokenize;
  }

  lemma {:induction false} AllWordsSplit(a: seq<string>, b: seq<string>)
    ensures AllWords(a + b) == AllWords(a) + AllWords(b)
  {
    hide Tokenize, AllWords;
    if a == [] {
      NoWords();
      assert a + b == b;
    } else {
      AllWordsSplit(a[1..], b);
      assert (a + b)[0] == a[0] && (a + b)[1..] == a[1..] + b;
      AllWordsFirst(a);
      AllWordsFirst(a + b);
    }
  }

  lemma {:induction false} SeparatorRuns(t: string, c: char, open: string)
    requires !IsWordChar(c)
    ensures Runs(Replace(t, c), open) == Runs(t, open)
    decreases |t|
  {
    if t != "" {
      assert Replace(t, c)[1..] == Replace(t[1..], c);
      if IsWordChar(t[0]) {
        SeparatorRuns(t[1..], c, open + [t[0]]);
      } else {
        SeparatorRuns(t[1..], c, "");
      }
    }
  }

  /** Replacing underscores, hyphens or plus signs by blanks makes no difference to the words. */
  lemma SeparatorsAreBlanks(t: string, c: char)
    requires !IsWordChar(c) && !('A' <= c <= 'Z')
    ensures Tokenize(Replace(t, c)) == Tokenize(t)
  {
    hide Runs;
    SeparatorRuns(Lower(t), c, "");
    assert Lower(Replace(t, c)) == Replace(Lower(t), c);
  }

  // ---- records and events ----

  /** An evidence record; docId is the hash of its id. An absent origin or collector is empty. */
  datatype Record = Record(evidenceId: string, docId: string, entityId: string, entityType: string, source: string,
                           signalType: string, phase: string, originAs: string, collector: string, at: int, event: string)

  datatype Outage = Outage(locations: seq<string>, asns: seq<string>, datasources: seq<string>, kind: string, cause: string,
                           start: int, end: int)

  function Parts(r: Record): seq<string> {
    [r.entityId, r.entityType, Replace(r.source, '_'), Replace(Replace(r.signalType, '_'), '-'), r.phase]
    + (if r.originAs == "" then [] else [r.originAs])
    + (if r.collector == "" then [] else [Replace(Replace(r.collector, '+'), '_')])
  }

  function EvidenceOf(r: Record): Evidence {
    Evidence(r.evidenceId, r.docId, r.event, Tokenize(TokenText.Join(" ", Parts(r))),
             Profile(Lower(r.entityId), Lower(r.entityType), TokenSet(Tokenize(Replace(r.source + " " + r.signalType, '-'))), r.at))
  }

  function PoolOf(records: seq<Record>): (pool: seq<Evidence>)
    ensures |pool| == |records|
  {
    seq(|records|, i requires 0 <= i < |records| => EvidenceOf(records[i]))
  }

  function LowerSet(names: seq<string>): set<string> {
    set i | 0 <= i < |names| :: Lower(names[i])
  }

  function QueryParts(o: Outage): seq<string> {
    o.locations + o.asns + [Replace(o.kind, '_'), Replace(o.cause, '_')]
  }

  function QueryOf(o: Outage): Query {
    var sources := seq(|o.datasources|, i requires 0 <= i < |o.datasources| => Replace(o.datasources[i], '-'));
    Query(Tokenize(TokenText.Join(" ", QueryParts(o))), LowerSet(o.locations), LowerSet(o.asns),
          (if o.locations == [] then {} else {"country"}) + (if o.asns == [] then {} else {"asn"}),
          TokenSet(Tokenize(TokenText.Join(" ", sources))), o.start, o.end)
  }

  // ---- a matched entity is a shared word, if it has any words ----

  lemma {:induction false} WordsOfPart(parts: seq<string>, i: nat, word: string)
    requires i < |parts| && word in Tokenize(parts[i])
    ensures word in AllWords(parts)
  {
    hide Tokenize;
    if i > 0 {
      WordsOfPart(parts[1..], i - 1, word);
    }
  }

  lemma NamedAmong(r: Record, o: Outage) returns (i: nat)
    requires EntityMatch(QueryOf(o), EvidenceOf(r).profile)
    ensures i < |o.locations + o.asns| && Lower((o.locations + o.asns)[i]) == Lower(r.entityId)
  {
    hide Tokenize, Lower, Replace;
    if Lower(r.entityId) in LowerSet(o.locations) {
      i :| 0 <= i < |o.locations| && Lower(o.locations[i]) == Lower(r.entityId);
    } else {
      var j :| 0 <= j < |o.asns| && Lower(o.asns[j]) == Lower(r.entityId);
      i := |o.locations| + j;
    }
  }

  /** A record on one of the event's entities shares a word with its query, provided the entity's name has a word. */
  lemma MatchedEntityIsShared(r: Record, o: Outage)
    requires EntityMatch(QueryOf(o), EvidenceOf(r).profile) && Tokenize(r.entityId) != []
    ensures Shares(TokenSet(QueryOf(o).lex), TokenSet(EvidenceOf(r).tokens))
  {
    hide Runs, IsKept, Replace, Lower;
    var i := NamedAmong(r, o);
    var word := Tokenize(r.entityId)[0];
    assert QueryParts(o)[i] == (o.locations + o.asns)[i] && Parts(r)[0] == r.entityId;
    TokenizeJoin(QueryParts(o));
    TokenizeJoin(Parts(r));
    WordsOfPart(QueryParts(o), i, word);
    WordsOfPart(Parts(r), 0, word);
    assert word in TokenSet(QueryOf(o).lex) && word in TokenSet(EvidenceOf(r).tokens);
  }

  /** The proviso fails for country codes that are stop words: India's leaves no word at all. */
  lemma StopWordCountry()
    ensures Tokenize("IN") == []
  {
    assert Lower("IN") == "in";
    assert Runs("in", "") == ["in"] by {
      assert "in"[1..] == "n" && "n"[1..] == "" && "" + ['i'] == "i" && "i" + ['n'] == "in";
      assert Runs("", "in") == ["in"];
      assert Runs("n", "i") == ["in"];
    }
    FilterNone(IsKept, ["in"]);
  }
}
