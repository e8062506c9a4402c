/** The in-process memory store: mutable records kept in insertion order under unique ids
    (core/memory/store.py). Retrieval indexes and durable repositories are not part of it. */
module MemoryStore {
  import opened Basics
  import opened Sorting

  datatype Tier = Episodic | Semantic | Procedural | AssetProfile

  datatype RelationType = Precedes | Follows | SimilarTo

  datatype Relation = Relation(target: string, kind: RelationType, confidence: real)

  /** The state of one record. Instants are numbers on one clock. */
  datatype Rec = Rec(
    id: string, tier: Tier, tags: seq<string>, assets: seq<string>,
    quarantined: bool, ready: bool, confidence: real, importance: real, strength: real,
    accessCount: nat, traces: seq<string>, links: seq<string>, relations: seq<Relation>,
    supersededBy: Option<string>, firstObserved: Option<int>, lastObserved: Option<int>,
    validFrom: Option<int>, validTo: Option<int>, eventType: Option<string>)

  datatype StoreError = DuplicateId

  class MemoryRecord {
    const id: string
    const tier: Tier
    var tags: seq<string>
    var assets: seq<string>
    var quarantined: bool
    const ready: bool
    var confidence: real
    var importance: real
    var strength: real
    var accessCount: nat
    var traces: seq<string>
    var links: seq<string>
    var relations: seq<Relation>
    var supersededBy: Option<string>
    const firstObserved: Option<int>
    var lastObserved: Option<int>
    const validFrom: Option<int>
    var validTo: Option<int>
    const eventType: Option<string>

    constructor (r: Rec)
      ensures State() == r
    {
      id, tier, tags, assets := r.id, r.tier, r.tags, r.assets;
      quarantined, ready, confidence, importance := r.quarantined, r.ready, r.confidence, r.importance;
      strength, accessCount, traces, links := r.strength, r.accessCount, r.traces, r.links;
      relations, supersededBy := r.relations, r.supersededBy;
      firstObserved, lastObserved := r.firstObserved, r.lastObserved;
      validFrom, validTo, eventType := r.validFrom, r.validTo, r.eventType;
    }

    function State(): Rec
      reads this
    {
      Rec(id, tier, tags, assets, quarantined, ready, confidence, importance, strength, accessCount,
          traces, links, relations, supersededBy, firstObserved, lastObserved, validFrom, validTo, eventType)
    }
  }

  // ---- the store as a value ----

  type View = seq<Rec>

  ghost predicate UniqueIds(view: View) {
    forall i, j :: 0 <= i < j < |view| ==> view[i].id != view[j].id
  }

  predicate IsActive(r: Rec) {
    !r.quarantined && r.ready
  }

  /** Position of the record with this id, or -1. */
  function IndexOf(view: View, id: string): (index: int)
    ensures -1 <= index < |view|
    ensures index >= 0 ==> view[index].id == id
    ensures index == -1 ==> forall i :: 0 <= i < |view| ==> view[i].id != id
  {
    if view == [] then -1
    else if view[|view| - 1].id == id then |view| - 1
    else IndexOf(view[..|view| - 1], id)
  }

  function Added(view: View, r: Rec): Result<View, StoreError> {
    if IndexOf(view, r.id) >= 0 then Err(DuplicateId) else Ok(view + [r])
  }

  function Quarantine(r: Rec, reason: string): Rec {
    r.(quarantined := true, tags := r.tags + ["quarantine:" + reason])
  }

  /** Links are kept without repetition. */
  function LinkTo(r: Rec, id: string): Rec {
    if id in r.links then r else r.(links := r.links + [id])
  }

  lemma IndexOfIs(view: View, i: nat)
    requires UniqueIds(view) && i < |view|
    ensures IndexOf(view, view[i].id) == i
  {
  }

  lemma IndexOfStep(view: View, id: string, index: int)
    requires -1 <= index < |view|
    ensures index == -1 ==> IndexOf(view[..0], id) == -1
    ensures index >= 0 ==> IndexOf(view[..index + 1], id) == if view[index].id == id then index else IndexOf(view[..index], id)
  {
    if index >= 0 {
      assert view[..index + 1][..index] == view[..index];
    }
  }

  lemma AppendUnique(view: View, r: Rec)
    requires UniqueIds(view) && IndexOf(view, r.id) == -1
    ensures UniqueIds(view + [r])
  {
  }

  class Store {
    var records: seq<MemoryRecord>

    constructor ()
      ensures Valid() && View() == [] && fresh(this) && records == []
    {
      records := [];
    }

    ghost predicate Valid()
      reads this, records
    {
      Distinct(records) && UniqueIds(View())
    }

    function View(): (view: View)
      reads this, records
      ensures |view| == |records|
      ensures forall i :: 0 <= i < |view| ==> view[i] == records[i].State()
    {
      seq(|records|, i requires 0 <= i < |records| reads this, records => records[i].State())
    }

    method Get(id: string) returns (index: int)
      requires Valid()
      ensures index == IndexOf(View(), id)
    {
      hide IndexOf;
      index := |records| - 1;
      assert View()[..|records|] == View();
      while index >= 0 && records[index].id != id
        invariant -1 <= index < |records|
        invariant IndexOf(View()[..index + 1], id) == IndexOf(View(), id)
      {
        IndexOfStep(View(), id, index);
        index := index - 1;
      }
      IndexOfStep(View(), id, index);
    }

    method Add(r: Rec) returns (error: Option<StoreError>)
      requires Valid()
      modifies this
      ensures Valid()
      ensures error.Some? <==> Added(old(View()), r).Err?
      ensures error.Some? ==> View() == old(View()) && records == old(records)
      ensures error == None ==> View() == old(View()) + [r] == Added(old(View()), r).value
      ensures error == None ==>
        |records| == |old(records)| + 1 && records[..|old(records)|] == old(records) && fresh(records[|old(records)|])
    {
      hide UniqueIds, IndexOf;
      var index := Get(r.id);
      if index >= 0 {
        return Some(DuplicateId);
      }
      Append(r);
      return None;
    }

    method Append(r: Rec)
      requires Valid() && IndexOf(View(), r.id) == -1
      modifies this
      ensures Valid() && View() == old(View()) + [r]
      ensures |records| == |old(records)| + 1 && records[..|old(records)|] == old(records) && fresh(records[|old(records)|])
    {
      hide UniqueIds, IndexOf;
      ghost var before, view := records, View();
      AppendUnique(view, r);
      var record := new MemoryRecord(r);
      records := records + [record];
      assert forall i :: 0 <= i < |before| ==> records[i] == before[i] && View()[i] == view[i];
      assert View() == view + [r];
    }

    /** Records are changed one field at a time; the rest of the store stays as it is. */
    method SetLastObserved(index: nat, time: int)
      requires Valid() && index < |records|
      modifies records[index]
      ensures Valid() && View() == old(View())[index := old(View())[index].(lastObserved := Some(time))]
    {
      records[index].lastObserved := Some(time);
    }

    method SetValidTo(index: nat, time: int)
      requires Valid() && index < |records|
      modifies records[index]
      ensures Valid() && View() == old(View())[index := old(View())[index].(validTo := Some(time))]
    {
      records[index].validTo := Some(time);
    }

    method LinkAt(index: nat, id: string)
      requires Valid() && index < |records|
      modifies records[index]
      ensures Valid() && View() == old(View())[index := LinkTo(old(View())[index], id)]
    {
      if id !in records[index].links {
        records[index].links := records[index].links + [id];
      }
    }

    method SupersededAt(index: nat, newer: string)
      requires Valid() && index < |records|
      modifies records[index]
      ensures Valid() && View() == old(View())[index := old(View())[index].(supersededBy := Some(newer))]
    {
      records[index].supersededBy := Some(newer);
    }

    method QuarantineAt(index: nat, reason: string)
      requires Valid() && index < |records|
      modifies records[index]
      ensures Valid() && View() == old(View())[index := Quarantine(old(View())[index], reason)]
    {
      records[index].quarantined := true;
      records[index].tags := records[index].tags + ["quarantine:" + reason];
    }
  }
}
