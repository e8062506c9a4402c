/** What one observation does to a store, in terms of the fields of its records (core/evolve/memory_ops.py). */
module ObservationRules {
  import opened Basics
  import opened MemoryStore
  import opened FactHistory

  /** A live record of the observed key whose interval contains the instant: from its start, up to but not including its
      end; a missing end is open. */
  ghost predicate Answers(r: Rec, o: Observation) {
    && !r.quarantined && r.ready && r.eventType == Some("keyed_fact")
    && "subject:" + o.subject in r.tags && "relation:" + o.relation in r.tags
    && (r.validFrom.Some? ==> r.validFrom.value <= o.time) && (r.validTo.Some? ==> o.time < r.validTo.value)
  }

  /** Record i answers, and none added after it does. */
  ghost predicate LastAnswer(view: View, o: Observation, i: int) {
    0 <= i < |view| && Answers(view[i], o) && forall j :: i < j < |view| ==> !Answers(view[j], o)
  }

  lemma AnswersAre(o: Observation)
    ensures forall r :: Answers(r, o) <==> IsCurrent(r, o)
  {
  }

  lemma LastAnswerIs(view: View, o: Observation, i: int)
    ensures LastAnswer(view, o, i) <==> i >= 0 && CurrentFact(view, o) == i
  {
    AnswersAre(o);
  }

  /** The record written for a new value: of the semantic tier, tagged with the key and the value, about the subject, live,
      observed and valid from the instant on, with no end. */
  ghost predicate IsNewFact(r: Rec, o: Observation) {
    && r.id == o.newId && r.tier == Semantic && r.eventType == Some("keyed_fact")
    && r.tags == ["keyed_fact", "subject:" + o.subject, "relation:" + o.relation, "value:" + o.value] && r.assets == [o.subject]
    && !r.quarantined && r.ready && r.confidence == o.confidence && r.links == [] && r.supersededBy == None
    && r.firstObserved == r.lastObserved == r.validFrom == Some(o.time) && r.validTo == None
  }

  lemma NewFactIs(o: Observation)
    ensures IsNewFact(Successor(o), o)
  {
  }

  /** The same value again: only the time of the last confirmation moves, and never back. */
  lemma SameValueConfirms(view: View, o: Observation, i: nat)
    requires LastAnswer(view, o, i) && "value:" + o.value in view[i].tags
    ensures |Observe(view, o)| == |view| && forall k :: 0 <= k < |view| && k != i ==> Observe(view, o)[k] == view[k]
    ensures var before, after := view[i], Observe(view, o)[i];
      && after == before.(lastObserved := after.lastObserved) && after.lastObserved.Some?
      && after.lastObserved.value == if before.lastObserved.Some? then Max(before.lastObserved.value, o.time) else o.time
  {
    hide IsCurrent, Answers;
    LastAnswerIs(view, o, i);
  }

  /** Another value: the answering record, if there is one, ends at the instant, and the new fact comes last. If the new id
      is taken, nothing happens. */
  lemma OtherValueReplaces(view: View, o: Observation)
    requires UniqueIds(view) && forall i :: LastAnswer(view, o, i) ==> "value:" + o.value !in view[i].tags
    ensures var after := Observe(view, o);
      if exists k :: 0 <= k < |view| && view[k].id == o.newId then after == view
      else
        && |after| == |view| + 1 && IsNewFact(after[|view|], o)
        && forall k :: 0 <= k < |view| ==> after[k] == if LastAnswer(view, o, k) then view[k].(validTo := Some(o.time)) else view[k]
  {
    hide IsCurrent, Answers;
    NewFactIs(o);
    forall i ensures LastAnswer(view, o, i) <==> i >= 0 && CurrentFact(view, o) == i {
      LastAnswerIs(view, o, i);
    }
  }
}
