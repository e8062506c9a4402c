/** Retrieval over a pool of evidence through a typed entity index, a sorted time index and an inverted
    token index (core/eval/ioda_retrieval.py), against a scan of the whole pool. */
module Retrieval {
  import opened Basics
  import opened Sorting

  /** What the structured retriever knows of a document: its entity in lower case, the entity's kind, its coarse
      source tokens, its time. */
  datatype Profile = Profile(entity: string, kind: string, sources: set<string>, at: int)

  /** An evidence record with the document id hashed from its evidence id. */
  datatype Evidence = Evidence(evidenceId: string, docId: string, event: string, tokens: seq<string>, profile: Profile)

  datatype Query = Query(lex: seq<string>, countries: set<string>, asns: set<string>, kinds: set<string>,
                         hints: set<string>, start: int, end: int)

  datatype Stamp = Stamp(at: int, id: string)

  datatype Corpus = Corpus(docSets: map<string, set<string>>, inverted: map<string, set<string>>,
                           docToEvent: map<string, string>, profiles: map<string, Profile>,
                           entityIndex: map<(string, string), seq<string>>, times: seq<int>, timeIds: seq<string>)

  // ---- what the indexes must hold ----

  function TokenSet(tokens: seq<string>): set<string> {
    set t | t in tokens
  }

  ghost function IdSet(pool: seq<Evidence>): set<string> {
    set i | 0 <= i < |pool| :: pool[i].docId
  }

  ghost predicate UniqueIds(pool: seq<Evidence>) {
    forall i, j :: 0 <= i < j < |pool| ==> pool[i].docId != pool[j].docId
  }

  /** The ids of the pool's documents on one typed entity, in pool order. */
  function EntityIds(pool: seq<Evidence>, key: (string, string)): seq<string> {
    if pool == [] then []
    else
      var e := pool[|pool| - 1];
      EntityIds(pool[..|pool| - 1], key) + if (e.profile.kind, e.profile.entity) == key then [e.docId] else []
  }

  function Stamps(pool: seq<Evidence>): seq<Stamp> {
    seq(|pool|, i requires 0 <= i < |pool| => Stamp(pool[i].profile.at, pool[i].docId))
  }

  predicate StampLe(a: Stamp, b: Stamp) {
    a.at < b.at || (a.at == b.at && StringLe(a.id, b.id))
  }

  function TimesOf(stamps: seq<Stamp>): seq<int> {
    seq(|stamps|, i requires 0 <= i < |stamps| => stamps[i].at)
  }

  function IdsOf(stamps: seq<Stamp>): seq<string> {
    seq(|stamps|, i requires 0 <= i < |stamps| => stamps[i].id)
  }

  function Listed(index: map<(string, string), seq<string>>, key: (string, string)): seq<string> {
    if key in index then index[key] else []
  }

  function Posted(index: map<string, set<string>>, token: string): set<string> {
    if token in index then index[token] else {}
  }

  ghost predicate DocsStored(c: Corpus, pool: seq<Evidence>) {
    && c.docSets.Keys == IdSet(pool) && c.docToEvent.Keys == IdSet(pool) && c.profiles.Keys == IdSet(pool)
    && forall i :: 0 <= i < |pool| ==>
         && pool[i].docId in IdSet(pool)
         && c.docSets[pool[i].docId] == TokenSet(pool[i].tokens)
         && c.docToEvent[pool[i].docId] == pool[i].event
         && c.profiles[pool[i].docId] == pool[i].profile
  }

  ghost predicate EntitiesListed(c: Corpus, pool: seq<Evidence>) {
    forall key :: Listed(c.entityIndex, key) == EntityIds(pool, key)
  }

  ghost predicate TokensPosted(c: Corpus) {
    forall token, id :: id in Posted(c.inverted, token) <==> id in c.docSets && token in c.docSets[id]
  }

  ghost predicate TimesSorted(c: Corpus, pool: seq<Evidence>) {
    c.times == TimesOf(Sort(Stamps(pool), StampLe)) && c.timeIds == IdsOf(Sort(Stamps(pool), StampLe))
  }

  ghost predicate Indexed(c: Corpus, pool: seq<Evidence>) {
    UniqueIds(pool) && DocsStored(c, pool) && EntitiesListed(c, pool) && TokensPosted(c) && TimesSorted(c, pool)
  }

  // ---- building the corpus ----

  ghost predicate AddsPostings(before: map<string, set<string>>, after: map<string, set<string>>, tokens: set<string>, id: string) {
    forall t, d :: d in Posted(after, t) <==> d in Posted(before, t) || (d == id && t in tokens)
  }

  lemma PostOne(before: map<string, set<string>>, index: map<string, set<string>>, next: map<string, set<string>>,
                done: set<string>, id: string, t: string)
    requires AddsPostings(before, index, done, id) && next == index[t := Posted(index, t) + {id}]
    ensures AddsPostings(before, next, done + {t}, id)
  {
    forall u, d ensures d in Posted(next, u) <==> d in Posted(before, u) || (d == id && u in done + {t}) {
      assert Posted(next, u) == if u == t then Posted(index, t) + {id} else Posted(index, u);
      assert d in Posted(index, u) <==> d in Posted(before, u) || (d == id && u in done);
    }
  }

  method PostTokens(inverted: map<string, set<string>>, id: string, tokens: set<string>) returns (index: map<string, set<string>>)
    ensures AddsPostings(inverted, index, tokens, id)
  {
    index := inverted;
    var done: set<string> := {};
    while done != tokens
      invariant done <= tokens && AddsPostings(inverted, index, done, id)
      decreases |tokens - done|
    {
      HasMember(tokens - done);
      var t :| t in tokens - done;
      var next := index[t := Posted(index, t) + {id}];
      PostOne(inverted, index, next, done, id, t);
      assert tokens - (done + {t}) < tokens - done;
      index, done := next, done + {t};
    }
  }

  /** Two evidence records with one document id are refused, with the record that repeats the id. */
  ghost predicate IsFirstCollision(pool: seq<Evidence>, evidenceId: string) {
    exists i :: 0 <= i < |pool| && pool[i].evidenceId == evidenceId
             && UniqueIds(pool[..i]) && pool[i].docId in IdSet(pool[..i])
  }

  const EMPTY := Corpus(map[], map[], map[], map[], map[], [], [])

  ghost predicate Stored(c: Corpus, pool: seq<Evidence>) {
    UniqueIds(pool) && DocsStored(c, pool) && EntitiesListed(c, pool) && TokensPosted(c)
  }

  lemma NothingStored()
    ensures Stored(EMPTY, []) && Stamps([]) == []
  {
  }

  lemma KnownIds(c: Corpus, pool: seq<Evidence>)
    requires Stored(c, pool)
    ensures UniqueIds(pool) && c.docToEvent.Keys == IdSet(pool)
  {
  }

  lemma OneMoreStamp(pool: seq<Evidence>, e: Evidence)
    ensures Stamps(pool + [e]) == Stamps(pool) + [Stamp(e.profile.at, e.docId)]
  {
  }

  lemma StoredIsIndexed(c: Corpus, pool: seq<Evidence>)
    requires Stored(c, pool)
    ensures UniqueIds(pool)
    ensures var stamps := Sort(Stamps(pool), StampLe); Indexed(c.(times := TimesOf(stamps), timeIds := IdsOf(stamps)), pool)
  {
    hide Sort, StampLe, TimesOf, IdsOf;
  }

  lemma CollisionFound(pool: seq<Evidence>, n: nat)
    requires n < |pool| && UniqueIds(pool[..n]) && pool[n].docId in IdSet(pool[..n])
    ensures !UniqueIds(pool) && IsFirstCollision(pool, pool[n].evidenceId)
  {
  }

  lemma HasId(pool: seq<Evidence>, i: nat)
    requires i < |pool|
    ensures pool[i].docId in IdSet(pool)
  {
  }

  lemma IdSetMore(pool: seq<Evidence>, e: Evidence)
    ensures IdSet(pool + [e]) == IdSet(pool) + {e.docId}
  {
    var more := pool + [e];
    assert more[|pool|] == e;
    forall id | id in IdSet(pool) ensures id in IdSet(more) {
      var i :| 0 <= i < |pool| && pool[i].docId == id;
      assert more[i].docId == id;
    }
  }

  lemma DocsMore(c: Corpus, next: Corpus, pool: seq<Evidence>, e: Evidence)
    requires UniqueIds(pool) && DocsStored(c, pool) && e.docId !in c.docToEvent
    requires next.docSets == c.docSets[e.docId := TokenSet(e.tokens)]
    requires next.docToEvent == c.docToEvent[e.docId := e.event] && next.profiles == c.profiles[e.docId := e.profile]
    ensures UniqueIds(pool + [e]) && DocsStored(next, pool + [e])
  {
    hide TokenSet, IdSet;
    var more := pool + [e];
    IdSetMore(pool, e);
    forall i | 0 <= i < |more| ensures more[i].docId in IdSet(more) {
      HasId(more, i);
    }
    forall i | 0 <= i < |pool| ensures pool[i].docId in IdSet(pool) {
      HasId(pool, i);
    }
    forall i | 0 <= i < |more|
      ensures next.docSets[more[i].docId] == TokenSet(more[i].tokens)
      ensures next.docToEvent[more[i].docId] == more[i].event && next.profiles[more[i].docId] == more[i].profile
    {
      if i < |pool| {
        assert more[i] == pool[i];
      }
    }
  }

  lemma EntitiesMore(c: Corpus, next: Corpus, pool: seq<Evidence>, e: Evidence)
    requires EntitiesListed(c, pool)
    requires var key := (e.profile.kind, e.profile.entity);
      next.entityIndex == c.entityIndex[key := Listed(c.entityIndex, key) + [e.docId]]
    ensures EntitiesListed(next, pool + [e])
  {
    var more := pool + [e];
    assert more[..|pool|] == pool;
    forall key ensures Listed(next.entityIndex, key) == EntityIds(more, key) {
      assert Listed(c.entityIndex, key) == EntityIds(pool, key);
    }
  }

  lemma TokensMore(c: Corpus, next: Corpus, id: string, tokens: set<string>)
    requires TokensPosted(c) && id !in c.docSets
    requires next.docSets == c.docSets[id := tokens] && AddsPostings(c.inverted, next.inverted, tokens, id)
    ensures TokensPosted(next)
  {
    hide Posted;
    forall t, d ensures d in Posted(next.inverted, t) <==> d in next.docSets && t in next.docSets[d] {
      assert d in Posted(next.inverted, t) <==> d in Posted(c.inverted, t) || (d == id && t in tokens);
      assert d in Posted(c.inverted, t) <==> d in c.docSets && t in c.docSets[d];
    }
  }

  lemma OneMoreStored(c: Corpus, next: Corpus, pool: seq<Evidence>, e: Evidence)
    requires Stored(c, pool) && e.docId !in c.docToEvent
    requires next.docSets == c.docSets[e.docId := TokenSet(e.tokens)]
    requires next.docToEvent == c.docToEvent[e.docId := e.event] && next.profiles == c.profiles[e.docId := e.profile]
    requires AddsPostings(c.inverted, next.inverted, TokenSet(e.tokens), e.docId)
    requires var key := (e.profile.kind, e.profile.entity);
      next.entityIndex == c.entityIndex[key := Listed(c.entityIndex, key) + [e.docId]]
    ensures Stored(next, pool + [e])
  {
    hide TokenSet, EntityIds, AddsPostings, EntitiesListed, TokensPosted, Listed;
    DocsMore(c, next, pool, e);
    EntitiesMore(c, next, pool, e);
    TokensMore(c, next, e.docId, TokenSet(e.tokens));
  }

  method BuildCorpus(pool: seq<Evidence>) returns (r: Result<Corpus, string>)
    ensures r.Ok? <==> UniqueIds(pool)
    ensures r.Ok? ==> Indexed(r.value, pool)
    ensures r.Err? ==> IsFirstCollision(pool, r.error)
  {
    hide *;
    var c := EMPTY;
    var stamps: seq<Stamp> := [];
    NothingStored();
    for n := 0 to |pool|
      invariant Stored(c, pool[..n])
      invariant stamps == Stamps(pool[..n])
    {
      var e := pool[n];
      assert pool[..n + 1] == pool[..n] + [e];
      KnownIds(c, pool[..n]);
      if e.docId in c.docToEvent {
        CollisionFound(pool, n);
        return Err(e.evidenceId);
      }
      var tokens := TokenSet(e.tokens);
      var inverted := PostTokens(c.inverted, e.docId, tokens);
      var key := (e.profile.kind, e.profile.entity);
      var next := Corpus(c.docSets[e.docId := tokens], inverted, c.docToEvent[e.docId := e.event], c.profiles[e.docId := e.profile],
                         c.entityIndex[key := Listed(c.entityIndex, key) + [e.docId]], [], []);
      OneMoreStored(c, next, pool[..n], e);
      OneMoreStamp(pool[..n], e);
      c := next;
      stamps := stamps + [Stamp(e.profile.at, e.docId)];
    }
    assert pool[..|pool|] == pool;
    stamps := Sort(stamps, StampLe);
    StoredIsIndexed(c, pool);
    r := Ok(c.(times := TimesOf(stamps), timeIds := IdsOf(stamps)));
  }

  // ---- the time window ----

  method BisectLeft(a: seq<int>, x: int) returns (lo: nat)
    requires forall i, j :: 0 <= i < j < |a| ==> a[i] <= a[j]
    ensures lo <= |a| && (forall i :: 0 <= i < lo ==> a[i] < x) && (forall i :: lo <= i < |a| ==> x <= a[i])
  {
    lo := 0;
    var hi := |a|;
    while lo < hi
      invariant lo <= hi <= |a|
      invariant (forall i :: 0 <= i < lo ==> a[i] < x) && (forall i :: hi <= i < |a| ==> x <= a[i])
    {
      var mid := (lo + hi) / 2;
      if a[mid] < x {
        lo := mid + 1;
      } else {
        hi := mid;
      }
    }
  }

  method BisectRight(a: seq<int>, x: int) returns (lo: nat)
    requires forall i, j :: 0 <= i < j < |a| ==> a[i] <= a[j]
    ensures lo <= |a| && (forall i :: 0 <= i < lo ==> a[i] <= x) && (forall i :: lo <= i < |a| ==> x < a[i])
  {
    lo := 0;
    var hi := |a|;
    while lo < hi
      invariant lo <= hi <= |a|
      invariant (forall i :: 0 <= i < lo ==> a[i] <= x) && (forall i :: hi <= i < |a| ==> x < a[i])
    {
      var mid := (lo + hi) / 2;
      if x < a[mid] {
        hi := mid;
      } else {
        lo := mid + 1;
      }
    }
  }

  /** The documents of a time window in time order, found by scanning. */
  function Window(pool: seq<Evidence>, start: int, end: int): seq<string> {
    IdsOf(Filter((s: Stamp) => start <= s.at <= end, Sort(Stamps(pool), StampLe)))
  }

  lemma StampOrder()
    ensures TotalPreorder(StampLe) && Antisymmetric(StampLe)
  {
    hide StringLe;
    forall a: Stamp, b: Stamp
      ensures StampLe(a, b) || StampLe(b, a)
      ensures StampLe(a, b) && StampLe(b, a) ==> a == b
    {
      StringLeTotal(a.id, b.id);
    }
    forall a: Stamp, b: Stamp, d: Stamp | StampLe(a, b) && StampLe(b, d) ensures StampLe(a, d) {
      StringLeTransitive(a.id, b.id, d.id);
    }
  }

  lemma SortedTimes(stamps: seq<Stamp>)
    requires SortedBy(stamps, StampLe)
    ensures forall i, j :: 0 <= i < j < |stamps| ==> TimesOf(stamps)[i] <= TimesOf(stamps)[j]
  {
    forall i, j | 0 <= i < j < |stamps| ensures stamps[i].at <= stamps[j].at {
      assert StampLe(stamps[i], stamps[j]);
    }
  }

  lemma {:induction false} FilterSlice<T>(p: T -> bool, s: seq<T>, lo: nat, hi: nat)
    requires lo <= hi <= |s| && forall i :: 0 <= i < |s| ==> (p(s[i]) <==> lo <= i < hi)
    ensures Filter(p, s) == s[lo..hi]
  {
    if lo > 0 {
      FilterSlice(p, s[1..], lo - 1, hi - 1);
      assert s[1..][lo - 1..hi - 1] == s[lo..hi];
    } else if hi > 0 {
      FilterSlice(p, s[1..], 0, hi - 1);
      assert [s[0]] + s[1..][..hi - 1] == s[..hi];
    } else {
      FilterNone(p, s);
    }
  }

  lemma IdsOfSlice(stamps: seq<Stamp>, lo: nat, hi: nat)
    requires lo <= hi <= |stamps|
    ensures |IdsOf(stamps)| == |stamps| && IdsOf(stamps[lo..hi]) == IdsOf(stamps)[lo..hi] && IdsOf([]) == []
  {
  }

  lemma WindowIsSlice(stamps: seq<Stamp>, lo: nat, hi: nat, start: int, end: int)
    requires lo <= |stamps| && hi <= |stamps|
    requires forall i :: 0 <= i < |stamps| ==> (TimesOf(stamps)[i] < start <==> i < lo) && (TimesOf(stamps)[i] <= end <==> i < hi)
    ensures IdsOf(Filter((s: Stamp) => start <= s.at <= end, stamps)) == if lo <= hi then IdsOf(stamps)[lo..hi] else []
  {
    hide IdsOf, Filter;
    var p := (s: Stamp) => start <= s.at <= end;
    forall i | 0 <= i < |stamps| ensures p(stamps[i]) <==> lo <= i < hi {
      assert TimesOf(stamps)[i] == stamps[i].at;
    }
    if lo <= hi {
      FilterSlice(p, stamps, lo, hi);
      IdsOfSlice(stamps, lo, hi);
    } else {
      FilterNone(p, stamps);
      IdsOfSlice(stamps, 0, 0);
    }
  }

  /** An empty or backwards window selects nothing. */
  method DocsInWindow(c: Corpus, ghost pool: seq<Evidence>, start: int, end: int) returns (ids: seq<string>)
    requires Indexed(c, pool)
    ensures ids == Window(pool, start, end)
  {
    hide Sort, UniqueIds, DocsStored, EntitiesListed, TokensPosted, StampLe, Stamps;
    ghost var stamps := Sort(Stamps(pool), StampLe);
    StampOrder();
    SortSorts(Stamps(pool), StampLe);
    SortedTimes(stamps);
    var lo := BisectLeft(c.times, start);
    var hi := BisectRight(c.times, end);
    WindowIsSlice(stamps, lo, hi, start, end);
    ids := if lo <= hi then c.timeIds[lo..hi] else [];
  }

  // ---- ranking ----

  datatype Hit = Hit(score: real, id: string)

  /** Higher score first; ties by id. */
  predicate HitLe(a: Hit, b: Hit) {
    a.score > b.score || (a.score == b.score && StringLe(a.id, b.id))
  }

  function HitIds(hits: seq<Hit>): seq<string> {
    seq(|hits|, i requires 0 <= i < |hits| => hits[i].id)
  }

  /** Scoring every document of the pool and keeping the positive scores. */
  function Hits(pool: seq<Evidence>, score: Evidence -> real): seq<Hit> {
    if pool == [] then []
    else
      var e := pool[|pool| - 1];
      Hits(pool[..|pool| - 1], score) + if score(e) > 0.0 then [Hit(score(e), e.docId)] else []
  }

  /** The reference ranking: score the whole pool and sort. */
  function Ranking(pool: seq<Evidence>, score: Evidence -> real): seq<string> {
    HitIds(Sort(Hits(pool, score), HitLe))
  }

  function FullScan(pool: seq<Evidence>, score: Evidence -> real, k: int): seq<string> {
    Take(Ranking(pool, score), k)
  }

  lemma HitOrder()
    ensures TotalPreorder(HitLe) && Antisymmetric(HitLe)
  {
    hide StringLe;
    forall a: Hit, b: Hit
      ensures HitLe(a, b) || HitLe(b, a)
      ensures HitLe(a, b) && HitLe(b, a) ==> a == b
    {
      StringLeTotal(a.id, b.id);
    }
    forall a: Hit, b: Hit, d: Hit | HitLe(a, b) && HitLe(b, d) ensures HitLe(a, d) {
      StringLeTransitive(a.id, b.id, d.id);
    }
  }

  lemma {:induction false} HitsAre(pool: seq<Evidence>, score: Evidence -> real)
    requires UniqueIds(pool)
    ensures Distinct(Hits(pool, score))
    ensures forall h :: h in Hits(pool, score) <==>
      exists i :: 0 <= i < |pool| && h == Hit(score(pool[i]), pool[i].docId) && h.score > 0.0
  {
    if pool != [] {
      var init, e := pool[..|pool| - 1], pool[|pool| - 1];
      HitsAre(init, score);
      var hits := Hits(init, score);
      assert forall h :: h in hits ==> h.id != e.docId;
      forall h ensures h in Hits(pool, score) <==>
        exists i :: 0 <= i < |pool| && h == Hit(score(pool[i]), pool[i].docId) && h.score > 0.0
      {
        if h in hits {
          var i :| 0 <= i < |init| && h == Hit(score(init[i]), init[i].docId) && h.score > 0.0;
          assert pool[i] == init[i];
        }
        if i :| 0 <= i < |pool| && h == Hit(score(pool[i]), pool[i].docId) && h.score > 0.0 {
          assert i < |init| ==> pool[i] == init[i];
          assert i == |init| ==> pool[i] == e;
        }
      }
    }
  }

  lemma SameRanking(a: seq<Hit>, b: seq<Hit>)
    requires Distinct(a) && Distinct(b) && forall h :: h in a <==> h in b
    ensures Sort(a, HitLe) == Sort(b, HitLe)
  {
    hide HitLe, Sort, Distinct;
    SameMembersPermute(a, b);
    HitOrder();
    SortPermutes(a, HitLe);
    SortPermutes(b, HitLe);
    SortSorts(a, HitLe);
    SortSorts(b, HitLe);
    SortedUnique(Sort(a, HitLe), Sort(b, HitLe), HitLe);
  }

  /** Scores the candidates in any order, sorts and cuts. */
  method RankCandidates(candidates: set<string>, score: string -> real, k: int, ghost reference: seq<Hit>) returns (ranked: seq<string>)
    requires Distinct(reference)
    requires forall h :: h in reference <==> h.id in candidates && h.score == score(h.id) > 0.0
    ensures ranked == Take(HitIds(Sort(reference, HitLe)), k)
  {
    hide HitLe, HitIds, Sort;
    var hits: seq<Hit> := [];
    var todo := candidates;
    while todo != {}
      invariant todo <= candidates
      invariant Distinct(hits)
      invariant forall h :: h in hits <==> h.id in candidates - todo && h.score == score(h.id) > 0.0
      decreases |todo|
    {
      HasMember(todo);
      var id :| id in todo;
      if score(id) > 0.0 {
        hits := hits + [Hit(score(id), id)];
      }
      todo := todo - {id};
    }
    SameRanking(hits, reference);
    ranked := Take(HitIds(Sort(hits, HitLe)), k);
  }

  // ---- the structured retriever ----

  predicate EntityMatch(q: Query, p: Profile) {
    (p.kind == "country" && p.entity in q.countries) || (p.kind == "asn" && p.entity in q.asns)
  }

  function StructuredScore(q: Query, p: Profile, useTime: bool): real {
    var timeMatch := useTime && q.start <= p.at <= q.end;
    var base := (if EntityMatch(q, p) then 3.0 else 0.0) + (if timeMatch then 2.0 else 0.0);
    if base == 0.0 then 0.0
    else base + (if p.kind in q.kinds then 0.5 else 0.0) + (if q.hints * p.sources != {} then 0.5 else 0.0)
  }

  /** Every document on one of the named entities of a kind. */
  method AddEntities(c: Corpus, ghost pool: seq<Evidence>, kind: string, names: set<string>, from: set<string>)
    returns (candidates: set<string>)
    requires EntitiesListed(c, pool)
    ensures forall id :: id in candidates <==> id in from || exists name :: name in names && id in EntityIds(pool, (kind, name))
  {
    hide EntityIds;
    candidates := from;
    var todo := names;
    while todo != {}
      invariant todo <= names
      invariant forall id :: id in candidates <==>
        id in from || exists name :: name in names - todo && id in EntityIds(pool, (kind, name))
      decreases |todo|
    {
      HasMember(todo);
      var name :| name in todo;
      assert Listed(c.entityIndex, (kind, name)) == EntityIds(pool, (kind, name));
      candidates := candidates + set id | id in Listed(c.entityIndex, (kind, name));
      todo := todo - {name};
    }
  }

  lemma {:induction false} EntityIdsAre(pool: seq<Evidence>, key: (string, string), id: string)
    ensures id in EntityIds(pool, key) <==>
      exists i :: 0 <= i < |pool| && pool[i].docId == id && (pool[i].profile.kind, pool[i].profile.entity) == key
  {
    if pool != [] {
      var init := pool[..|pool| - 1];
      EntityIdsAre(init, key, id);
      assert forall i :: 0 <= i < |init| ==> pool[i] == init[i];
    }
  }

  lemma WindowHolds(pool: seq<Evidence>, start: int, end: int, id: string)
    ensures id in Window(pool, start, end) <==> exists i :: 0 <= i < |pool| && pool[i].docId == id && start <= pool[i].profile.at <= end
  {
    hide Sort, StampLe, Filter;
    var p := (s: Stamp) => start <= s.at <= end;
    var stamps := Sort(Stamps(pool), StampLe);
    SortMembers(Stamps(pool), StampLe);
    FilterMembers(p, stamps);
    var kept := Filter(p, stamps);
    if id in Window(pool, start, end) {
      var j :| 0 <= j < |kept| && IdsOf(kept)[j] == id;
      assert kept[j] in Stamps(pool) && p(kept[j]);
      var i :| 0 <= i < |pool| && Stamps(pool)[i] == kept[j];
      assert pool[i].docId == id;
    }
    if i :| 0 <= i < |pool| && pool[i].docId == id && start <= pool[i].profile.at <= end {
      assert Stamps(pool)[i] in Stamps(pool) && p(Stamps(pool)[i]);
      var j :| 0 <= j < |kept| && kept[j] == Stamps(pool)[i];
      assert IdsOf(kept)[j] == id;
    }
  }

  ghost predicate Offered(pool: seq<Evidence>, q: Query, useTime: bool, id: string) {
    || (exists name :: name in q.countries && id in EntityIds(pool, ("country", name)))
    || (exists name :: name in q.asns && id in EntityIds(pool, ("asn", name)))
    || (useTime && id in Window(pool, q.start, q.end))
  }

  /** A document is offered exactly if it is in the pool and scores. */
  lemma OfferedIsScored(pool: seq<Evidence>, q: Query, useTime: bool, id: string)
    ensures Offered(pool, q, useTime, id) <==>
      exists i :: 0 <= i < |pool| && pool[i].docId == id && StructuredScore(q, pool[i].profile, useTime) > 0.0
  {
    hide EntityIds, Window;
    WindowHolds(pool, q.start, q.end, id);
    forall name, kind ensures id in EntityIds(pool, (kind, name)) <==>
      exists i :: 0 <= i < |pool| && pool[i].docId == id && (pool[i].profile.kind, pool[i].profile.entity) == (kind, name)
    {
      EntityIdsAre(pool, (kind, name), id);
    }
    if i :| 0 <= i < |pool| && pool[i].docId == id && StructuredScore(q, pool[i].profile, useTime) > 0.0 {
      assert id in EntityIds(pool, (pool[i].profile.kind, pool[i].profile.entity));
    }
  }

  lemma CandidatesScore(pool: seq<Evidence>, q: Query, useTime: bool, candidates: set<string>)
    requires UniqueIds(pool) && forall id :: id in candidates <==> Offered(pool, q, useTime, id)
    ensures candidates <= IdSet(pool)
    ensures forall i :: 0 <= i < |pool| ==> (pool[i].docId in candidates <==> StructuredScore(q, pool[i].profile, useTime) > 0.0)
  {
    hide EntityIds, Window, StructuredScore, Offered;
    forall id | id in candidates ensures id in IdSet(pool) {
      OfferedIsScored(pool, q, useTime, id);
    }
    forall i | 0 <= i < |pool| ensures pool[i].docId in candidates <==> StructuredScore(q, pool[i].profile, useTime) > 0.0 {
      OfferedIsScored(pool, q, useTime, pool[i].docId);
    }
  }

  /** The indexes miss no document that scores and offer none that does not. */
  method Candidates(c: Corpus, ghost pool: seq<Evidence>, q: Query, useTime: bool) returns (candidates: set<string>)
    requires Indexed(c, pool)
    ensures candidates <= IdSet(pool)
    ensures forall i :: 0 <= i < |pool| ==> (pool[i].docId in candidates <==> StructuredScore(q, pool[i].profile, useTime) > 0.0)
  {
    hide EntityIds, Window, DocsStored, TokensPosted, TimesSorted, StructuredScore;
    candidates := AddEntities(c, pool, "country", q.countries, {});
    candidates := AddEntities(c, pool, "asn", q.asns, candidates);
    if useTime {
      var window := DocsInWindow(c, pool, q.start, q.end);
      candidates := candidates + set id | id in window;
    }
    CandidatesScore(pool, q, useTime, candidates);
  }

  function ByProfile(q: Query, useTime: bool): Evidence -> real {
    (e: Evidence) => StructuredScore(q, e.profile, useTime)
  }

  /** Scoring ids out of the indexes and scoring the pool give the same hits. */
  lemma ReferenceFits(pool: seq<Evidence>, score: Evidence -> real, byId: string -> real, candidates: set<string>)
    requires UniqueIds(pool) && candidates <= IdSet(pool)
    requires forall i :: 0 <= i < |pool| ==> byId(pool[i].docId) == score(pool[i])
    requires forall i :: 0 <= i < |pool| ==> score(pool[i]) > 0.0 ==> pool[i].docId in candidates
    ensures Distinct(Hits(pool, score))
    ensures forall h :: h in Hits(pool, score) <==> h.id in candidates && h.score == byId(h.id) > 0.0
  {
    hide Hits, Distinct;
    HitsAre(pool, score);
    forall h ensures h in Hits(pool, score) <==> h.id in candidates && h.score == byId(h.id) > 0.0 {
      if h.id in candidates && h.score == byId(h.id) > 0.0 {
        assert h.id in IdSet(pool);
        var i :| 0 <= i < |pool| && pool[i].docId == h.id;
        assert h == Hit(score(pool[i]), pool[i].docId);
      }
    }
  }

  /** Index retrieval agrees with scoring and sorting the whole pool. */
  method RetrieveStructured(c: Corpus, ghost pool: seq<Evidence>, q: Query, k: int, useTime: bool) returns (ranked: seq<string>)
    requires Indexed(c, pool)
    ensures ranked == FullScan(pool, ByProfile(q, useTime), k)
  {
    hide StructuredScore, Hits, HitLe, HitIds, Sort, EntitiesListed, TokensPosted, TimesSorted;
    if k <= 0 {
      return [];
    }
    var candidates := Candidates(c, pool, q, useTime);
    var score := (id: string) => if id in c.profiles then StructuredScore(q, c.profiles[id], useTime) else 0.0;
    HitsAre(pool, ByProfile(q, useTime));
    ReferenceFits(pool, ByProfile(q, useTime), score, candidates);
    ranked := RankCandidates(candidates, score, k, Hits(pool, ByProfile(q, useTime)));
  }

  // ---- the lexical retrievers ----

  /** Share of the query's distinct terms found in a document. */
  function OverlapShare(terms: set<string>, tokens: set<string>): real {
    if terms == {} then 0.0 else |terms * tokens| as real / |terms| as real
  }

  ghost predicate Shares(a: set<string>, b: set<string>) {
    exists t :: t in a && t in b
  }

  lemma SharesNothing()
    ensures forall b :: !Shares({}, b)
  {
  }

  lemma SharesMore(done: set<string>, t: string)
    ensures forall b :: Shares(done + {t}, b) <==> Shares(done, b) || t in b
  {
    forall b ensures Shares(done + {t}, b) <==> Shares(done, b) || t in b {
      if Shares(done, b) {
        var u :| u in done && u in b;
        assert u in done + {t} && u in b;
      }
      if t in b {
        assert t in done + {t} && t in b;
      }
    }
  }

  /** Documents sharing a token with the query. */
  method LexicalCandidates(c: Corpus, terms: set<string>) returns (candidates: set<string>)
    requires TokensPosted(c)
    ensures forall id :: id in candidates <==> id in c.docSets && Shares(terms, c.docSets[id])
  {
    hide Shares;
    candidates := {};
    var done: set<string> := {};
    SharesNothing();
    while done != terms
      invariant done <= terms
      invariant forall id :: id in candidates <==> id in c.docSets && Shares(done, c.docSets[id])
      decreases |terms - done|
    {
      HasMember(terms - done);
      var t :| t in terms - done;
      candidates := candidates + Posted(c.inverted, t);
      SharesMore(done, t);
      assert terms - (done + {t}) < terms - done;
      done := done + {t};
    }
  }

  function ByOverlap(q: Query): Evidence -> real {
    (e: Evidence) => OverlapShare(TokenSet(q.lex), TokenSet(e.tokens))
  }

  lemma Unfolded(c: Corpus, pool: seq<Evidence>)
    requires Indexed(c, pool)
    ensures TokensPosted(c) && DocsStored(c, pool) && UniqueIds(pool)
  {
  }

  lemma FullScanIs(pool: seq<Evidence>, score: Evidence -> real, k: int)
    ensures FullScan(pool, score, k) == Take(HitIds(Sort(Hits(pool, score), HitLe)), k)
  {
  }

  lemma NothingAsked(pool: seq<Evidence>, score: Evidence -> real, k: int)
    requires k <= 0
    ensures FullScan(pool, score, k) == []
  {
  }

  lemma NoTerms(pool: seq<Evidence>, q: Query)
    requires TokenSet(q.lex) == {}
    ensures forall i :: 0 <= i < |pool| ==> ByOverlap(q)(pool[i]) <= 0.0
  {
    hide TokenSet;
  }

  ghost predicate SharedIfScored(pool: seq<Evidence>, q: Query, score: Evidence -> real) {
    forall i :: 0 <= i < |pool| && score(pool[i]) > 0.0 ==> Shares(TokenSet(q.lex), TokenSet(pool[i].tokens))
  }

  lemma LexicalFits(c: Corpus, pool: seq<Evidence>, q: Query, candidates: set<string>, byId: string -> real, score: Evidence -> real)
    requires UniqueIds(pool) && DocsStored(c, pool)
    requires forall id :: id in candidates <==> id in c.docSets && Shares(TokenSet(q.lex), c.docSets[id])
    requires forall i :: 0 <= i < |pool| ==> byId(pool[i].docId) == score(pool[i])
    requires SharedIfScored(pool, q, score)
    ensures var hits := Hits(pool, score);
      Distinct(hits) && forall h :: h in hits <==> h.id in candidates && h.score == byId(h.id) > 0.0
  {
    hide TokenSet, Hits, Distinct, Shares;
    ReferenceFits(pool, score, byId, candidates);
  }

  lemma ScoresIfShares(terms: set<string>, tokens: set<string>)
    ensures OverlapShare(terms, tokens) > 0.0 ==> Shares(terms, tokens)
  {
    if terms * tokens != {} {
      HasMember(terms * tokens);
      var t :| t in terms * tokens;
      assert t in terms && t in tokens;
    }
  }

  lemma OverlapFits(c: Corpus, pool: seq<Evidence>, q: Query, byId: string -> real)
    requires UniqueIds(pool) && DocsStored(c, pool)
    requires forall id :: byId(id) == if id in c.docSets then OverlapShare(TokenSet(q.lex), c.docSets[id]) else 0.0
    ensures forall i :: 0 <= i < |pool| ==> byId(pool[i].docId) == ByOverlap(q)(pool[i])
    ensures SharedIfScored(pool, q, ByOverlap(q))
  {
    hide TokenSet, OverlapShare, Shares;
    forall i | 0 <= i < |pool| && ByOverlap(q)(pool[i]) > 0.0 ensures Shares(TokenSet(q.lex), TokenSet(pool[i].tokens)) {
      ScoresIfShares(TokenSet(q.lex), TokenSet(pool[i].tokens));
    }
  }

  lemma {:induction false} NothingScores(pool: seq<Evidence>, score: Evidence -> real, k: int)
    requires forall i :: 0 <= i < |pool| ==> score(pool[i]) <= 0.0
    ensures Hits(pool, score) == [] && FullScan(pool, score, k) == []
  {
    if pool != [] {
      NothingScores(pool[..|pool| - 1], score, k);
    }
  }

  method RetrieveNaive(c: Corpus, ghost pool: seq<Evidence>, q: Query, k: int) returns (ranked: seq<string>)
    requires Indexed(c, pool)
    ensures ranked == FullScan(pool, ByOverlap(q), k)
  {
    hide *;
    var terms := TokenSet(q.lex);
    if k <= 0 {
      NothingAsked(pool, ByOverlap(q), k);
      return [];
    }
    if terms == {} {
      NoTerms(pool, q);
      NothingScores(pool, ByOverlap(q), k);
      return [];
    }
    Unfolded(c, pool);
    var candidates := LexicalCandidates(c, terms);
    var score := (id: string) => if id in c.docSets then OverlapShare(terms, c.docSets[id]) else 0.0;
    OverlapFits(c, pool, q, score);
    LexicalFits(c, pool, q, candidates, score, ByOverlap(q));
    ranked := RankCandidates(candidates, score, k, Hits(pool, ByOverlap(q)));
    FullScanIs(pool, ByOverlap(q), k);
  }

  function ByBm25(bm25: string -> real): Evidence -> real {
    (e: Evidence) => bm25(e.docId)
  }

  lemma Bm25Scores(bm25: string -> real)
    ensures forall e: Evidence :: ByBm25(bm25)(e) == bm25(e.docId)
  {
  }

  lemma NoWords(pool: seq<Evidence>, q: Query, score: Evidence -> real)
    requires q.lex == [] && SharedIfScored(pool, q, score)
    ensures forall i :: 0 <= i < |pool| ==> score(pool[i]) <= 0.0
  {
    assert TokenSet(q.lex) == {};
    SharesNothing();
  }

  /** Ranking by a term score that is zero wherever no query term occurs: scoring only the documents that share a
      term loses nothing. */
  method RetrieveBm25(c: Corpus, ghost pool: seq<Evidence>, q: Query, k: int, bm25: string -> real) returns (ranked: seq<string>)
    requires Indexed(c, pool) && SharedIfScored(pool, q, ByBm25(bm25))
    ensures ranked == FullScan(pool, ByBm25(bm25), k)
  {
    hide *;
    if k <= 0 {
      NothingAsked(pool, ByBm25(bm25), k);
      return [];
    }
    if q.lex == [] {
      NoWords(pool, q, ByBm25(bm25));
      NothingScores(pool, ByBm25(bm25), k);
      return [];
    }
    Unfolded(c, pool);
    var candidates := LexicalCandidates(c, TokenSet(q.lex));
    Bm25Scores(bm25);
    LexicalFits(c, pool, q, candidates, bm25, ByBm25(bm25));
    ranked := RankCandidates(candidates, bm25, k, Hits(pool, ByBm25(bm25)));
    FullScanIs(pool, ByBm25(bm25), k);
  }

  // ---- what a ranking is worth ----

  lemma ShorterRankingIsPrefix(pool: seq<Evidence>, score: Evidence -> real, k: int, longer: int)
    requires k <= longer
    ensures FullScan(pool, score, k) == Take(FullScan(pool, score, longer), k)
  {
  }

  /** The retrievers that score documents one by one. */
  datatype Retriever = Naive | Bm25 | Structured | StructuredNoTime

  function ScoreOf(m: Retriever, q: Query, bm25: string -> real): Evidence -> real {
    match m
    case Naive => ByOverlap(q)
    case Bm25 => ByBm25(bm25)
    case Structured => ByProfile(q, true)
    case StructuredNoTime => ByProfile(q, false)
  }

  method Retrieve(c: Corpus, ghost pool: seq<Evidence>, m: Retriever, q: Query, k: int, bm25: string -> real) returns (ranked: seq<string>)
    requires Indexed(c, pool) && SharedIfScored(pool, q, ByBm25(bm25))
    ensures ranked == FullScan(pool, ScoreOf(m, q, bm25), k)
  {
    hide Indexed, SharedIfScored, FullScan, ByOverlap, ByBm25, ByProfile;
    match m
    case Naive => ranked := RetrieveNaive(c, pool, q, k);
    case Bm25 => ranked := RetrieveBm25(c, pool, q, k, bm25);
    case Structured => ranked := RetrieveStructured(c, pool, q, k, true);
    case StructuredNoTime => ranked := RetrieveStructured(c, pool, q, k, false);
  }

  /** The evaluator retrieves once, for the largest cut-off, and slices: every slice is what its own retrieval would
      have returned. */
  method RankOnce(c: Corpus, ghost pool: seq<Evidence>, m: Retriever, q: Query, cutoffs: seq<nat>, bm25: string -> real)
    returns (slices: seq<seq<string>>)
    requires Indexed(c, pool) && SharedIfScored(pool, q, ByBm25(bm25))
    ensures |slices| == |cutoffs|
    ensures forall i :: 0 <= i < |cutoffs| ==> slices[i] == FullScan(pool, ScoreOf(m, q, bm25), cutoffs[i])
  {
    hide Indexed, SharedIfScored, FullScan, ScoreOf, ByBm25, Take;
    var longest: nat := 0;
    for i := 0 to |cutoffs|
      invariant forall j :: 0 <= j < i ==> cutoffs[j] <= longest
    {
      if cutoffs[i] > longest {
        longest := cutoffs[i];
      }
    }
    var ranked := Retrieve(c, pool, m, q, longest, bm25);
    slices := [];
    for i := 0 to |cutoffs|
      invariant |slices| == i
      invariant forall j :: 0 <= j < i ==> slices[j] == FullScan(pool, ScoreOf(m, q, bm25), cutoffs[j])
    {
      ShorterRankingIsPrefix(pool, ScoreOf(m, q, bm25), cutoffs[i], longest);
      slices := slices + [Take(ranked, cutoffs[i])];
    }
  }

  ghost predicate Outranks(a: Evidence, b: Evidence, score: Evidence -> real) {
    HitLe(Hit(score(a), a.docId), Hit(score(b), b.docId))
  }

  lemma IdsTellHitsApart(pool: seq<Evidence>, score: Evidence -> real, hits: seq<Hit>)
    requires UniqueIds(pool) && Distinct(hits)
    requires forall h :: h in hits ==> exists i :: 0 <= i < |pool| && h == Hit(score(pool[i]), pool[i].docId)
    ensures Distinct(HitIds(hits))
  {
    forall m, n | 0 <= m < n < |hits| ensures hits[m].id != hits[n].id {
      assert hits[m] in hits && hits[n] in hits;
      var i :| 0 <= i < |pool| && hits[m] == Hit(score(pool[i]), pool[i].docId);
      var j :| 0 <= j < |pool| && hits[n] == Hit(score(pool[j]), pool[j].docId);
    }
  }

  lemma SortedHits(pool: seq<Evidence>, score: Evidence -> real, sorted: seq<Hit>)
    requires UniqueIds(pool) && sorted == Sort(Hits(pool, score), HitLe)
    ensures SortedBy(sorted, HitLe) && Distinct(HitIds(sorted))
    ensures forall h :: h in sorted <==> exists i :: 0 <= i < |pool| && h == Hit(score(pool[i]), pool[i].docId) && h.score > 0.0
  {
    hide Hits, HitLe, Sort, Distinct, HitIds;
    var hits := Hits(pool, score);
    HitsAre(pool, score);
    HitOrder();
    SortSorts(hits, HitLe);
    SortMembers(hits, HitLe);
    SortPermutes(hits, HitLe);
    DistinctPermutes(hits, sorted);
    IdsTellHitsApart(pool, score, sorted);
  }

  lemma TakenIds(hits: seq<Hit>, k: nat)
    ensures var r := Take(HitIds(hits), k);
      |r| == Min(k, |hits|) && (forall n :: 0 <= n < |r| ==> r[n] == hits[n].id) && (Distinct(HitIds(hits)) ==> Distinct(r))
  {
  }

  lemma LeftOutIsWorse(pool: seq<Evidence>, score: Evidence -> real, sorted: seq<Hit>, k: nat, i: nat, j: nat)
    requires UniqueIds(pool) && SortedBy(sorted, HitLe) && i < |pool| && j < |pool|
    requires forall h :: h in sorted <==> exists i :: 0 <= i < |pool| && h == Hit(score(pool[i]), pool[i].docId) && h.score > 0.0
    requires var r := Take(HitIds(sorted), k); pool[i].docId in r && pool[j].docId !in r && score(pool[j]) > 0.0
    ensures Outranks(pool[i], pool[j], score) && |Take(HitIds(sorted), k)| == k
  {
    hide HitLe, HitIds, Take;
    TakenIds(sorted, k);
    var r := Take(HitIds(sorted), k);
    var a, b := Hit(score(pool[i]), pool[i].docId), Hit(score(pool[j]), pool[j].docId);
    var n :| 0 <= n < |r| && r[n] == a.id;
    assert sorted[n] == a by { assert sorted[n] in sorted; }
    assert b in sorted;
    var m :| 0 <= m < |sorted| && sorted[m] == b;
    assert forall x :: 0 <= x < |r| ==> sorted[x].id == r[x] != b.id;
    assert m >= |r|;
  }

  /** Nothing left out outranks anything returned, nothing is returned twice, and only a shortage of scoring
      documents makes a ranking shorter than asked. */
  lemma RankingIsBest(pool: seq<Evidence>, score: Evidence -> real, k: nat)
    requires UniqueIds(pool)
    ensures var r := FullScan(pool, score, k);
      && Distinct(r)
      && (forall id :: id in r ==> exists i :: 0 <= i < |pool| && pool[i].docId == id && score(pool[i]) > 0.0)
      && (forall i, j :: 0 <= i < |pool| && 0 <= j < |pool| && pool[i].docId in r && pool[j].docId !in r && score(pool[j]) > 0.0 ==>
            Outranks(pool[i], pool[j], score) && |r| == k)
  {
    hide Hits, HitLe, HitIds, Sort, Take, Distinct, FullScan, UniqueIds, SortedBy, Outranks;
    var sorted := Sort(Hits(pool, score), HitLe);
    SortedHits(pool, score, sorted);
    FullScanIs(pool, score, k);
    TakenIds(sorted, k);
    var r := FullScan(pool, score, k);
    forall id | id in r ensures exists i :: 0 <= i < |pool| && pool[i].docId == id && score(pool[i]) > 0.0 {
      var n :| 0 <= n < |r| && r[n] == id;
      assert sorted[n] in sorted;
    }
    forall i, j | 0 <= i < |pool| && 0 <= j < |pool| && pool[i].docId in r && pool[j].docId !in r && score(pool[j]) > 0.0
      ensures Outranks(pool[i], pool[j], score) && |r| == k
    {
      LeftOutIsWorse(pool, score, sorted, k, i, j);
    }
  }
}
