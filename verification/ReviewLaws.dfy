/** What the review queue shows and counts, in terms of the rows behind it. */
module ReviewLaws {
  import opened Wrappers
  import opened Fields
  import opened Text
  import opened Domain
  import opened Store
  import opened Rates
  import opened ReviewQueue

  /** Highest score first; equal scores by project, then by the name of the field, then by observation index. */
  predicate InQueueOrder(db: Db, a: Item, b: Item)
    requires a.candidate in db.candidates && b.candidate in db.candidates
  {
    && a.score >= b.score
    && (a.score == b.score ==> StrLeq(a.project, b.project))
    && (a.score == b.score && a.project == b.project ==> Rank(a.field) <= Rank(b.field))
    && (a.score == b.score && a.project == b.project && a.field == b.field ==>
          db.candidates[a.candidate].index <= db.candidates[b.candidate].index)
  }

  lemma PlacedIsQueueOrder(db: Db, a: Item, b: Item)
    requires Placed(db, a, b) && a.candidate in db.candidates && b.candidate in db.candidates
    ensures InQueueOrder(db, a, b)
  {
    StrLessTrichotomy(a.project, b.project);
    assert Ties(a, b) ==> ByIndex(db)(a.candidate, b.candidate);
    assert ByIndex(db)(a.candidate, b.candidate) ==> ObservationIndex(db, a.candidate) <= ObservationIndex(db, b.candidate);
    hide Rank;
  }

  /** The whole queue stands in that order, and what a limit leaves out comes after what it keeps. */
  lemma QueueStandsInOrder(
    db: Db, project: Option<string>, field: Option<Field>, includeApproved: bool, full: seq<Item>, limit: Option<int>, kept: seq<Item>)
    requires IsQueue(db, project, field, includeApproved, full) && IsCut(db, full, limit, kept)
    ensures forall i :: 0 <= i < |full| ==> full[i].candidate in db.candidates
    ensures forall i, j :: 0 <= i < j < |full| ==> InQueueOrder(db, full[i], full[j])
    ensures forall i :: 0 <= i < |kept| ==> kept[i] == full[i]
  {
    hide Placed, Complete, Rows, InQueueOrder;
    forall i | 0 <= i < |full|
      ensures full[i].candidate in db.candidates
    {
      assert full[i] in full;
      assert Describes(db, full[i]);
    }
    forall i, j | 0 <= i < j < |full|
      ensures InQueueOrder(db, full[i], full[j])
    {
      PlacedIsQueueOrder(db, full[i], full[j]);
    }
  }

  // ----- Metrics

  /** `part / whole`, where there is a whole. */
  function Part(part: nat, whole: nat): Option<real> { if whole == 0 then None else Some(part as real / whole as real) }

  lemma CandidatesMean(db: Db)
    ensures AllCandidates(db) == set c | c in db.candidates && db.candidates[c].run in db.reports
    ensures Decided(db) == set d | d in db.decisions :: db.decisions[d].candidate
  {
  }

  /** Candidates are those a report stands behind; the counts by status are of them. */
  lemma CandidateCountsMean(db: Db, states: map<Id, ReviewState>)
    ensures var m := MetricsFor(db, states);
      && m.total == |AllCandidates(db)|
      && forall s: CheckStatus :: var those := set c | c in AllCandidates(db) && db.candidates[c].status == s;
          (s in m.byStatus <==> those != {}) && (s in m.byStatus ==> m.byStatus[s] == |those|)
  {
    hide AverageLatency, OutcomeCounts, Reworked, FieldCoverage, Share, WithEvidence, PendingOf;
    forall s: CheckStatus
      ensures WithStatus(db, s) == set c | c in AllCandidates(db) && db.candidates[c].status == s
      ensures s in {MissingValue, RejectedCheck, NeedsReview}
    {
      match s { case MissingValue => case RejectedCheck => case NeedsReview => }
    }
    hide WithStatus, AllCandidates;
  }

  /** Decisions are counted by outcome; a candidate with several decisions is reworked. */
  lemma DecisionCountsMean(db: Db, states: map<Id, ReviewState>)
    ensures var m := MetricsFor(db, states);
      && m.decisions == |db.decisions| && m.reviewed == |Decided(db)|
      && m.pending == |set c | c in states && states[c] != Reviewed(Approved)|
      && m.rework == |set c | c in Decided(db) && |DecisionsOf(db, c)| > 1|
      && forall s: ReviewStatus :: var those := set d | d in db.decisions && db.decisions[d].status == s;
          (s in m.byDecision <==> those != {}) && (s in m.byDecision ==> m.byDecision[s] == |those|)
  {
    assert PendingOf(states) == set c | c in states && states[c] != Reviewed(Approved);
    assert Reworked(db) == set c | c in Decided(db) && |DecisionsOf(db, c)| > 1;
    hide Decided, AllCandidates, AverageLatency, StatusCounts, Reworked, FieldCoverage, Share, WithEvidence, PendingOf;
    forall s: ReviewStatus
      ensures WithOutcome(db, s) == set d | d in db.decisions && db.decisions[d].status == s
      ensures s in {Approved, Rejected, Unresolved}
    {
      match s { case Approved => case Rejected => case Unresolved => }
    }
    hide WithOutcome, DecisionsOf;
  }

  /** Each rate is its part of its whole: decisions, candidates, and fields of decided candidates among all fields. */
  lemma RatesMean(db: Db, states: map<Id, ReviewState>)
    ensures var m := MetricsFor(db, states);
      var stored, decided := AllCandidates(db), Decided(db);
      var evidenced := set c | c in stored && (exists k :: k in db.evidence && k.0 == c);
      && m.approvalRate == Part(|set d | d in db.decisions && db.decisions[d].status == Approved|, |db.decisions|)
      && m.unresolvedRate == Part(|set d | d in db.decisions && db.decisions[d].status == Unresolved|, |db.decisions|)
      && m.evidenceCoverage == Part(|evidenced|, |stored|)
      && m.fieldCoverage ==
          (if stored == {} then None
           else Part(|set c | c in decided && c in db.candidates :: db.candidates[c].field|,
                       |set c | c in stored :: db.candidates[c].field|))
  {
    assert WithEvidence(db) == set c | c in AllCandidates(db) && (exists k :: k in db.evidence && k.0 == c);
    assert FieldsOf(db, AllCandidates(db)) == set c | c in AllCandidates(db) :: db.candidates[c].field;
    hide Decided, AllCandidates, AverageLatency, StatusCounts, OutcomeCounts, Reworked, PendingOf, WithEvidence;
  }

  /** A decision has a latency iff the validation run of its candidate is known to have finished by then; it is the time between. */
  lemma LatencyMeans(db: Db, d: Id)
    requires d in db.decisions
    ensures var row := db.decisions[d];
      var finished := row.candidate in db.candidates && db.candidates[row.candidate].run in db.reports
        && db.candidates[row.candidate].run in db.runs && db.runs[db.candidates[row.candidate].run].finishedAt.Some?
        && db.runs[db.candidates[row.candidate].run].finishedAt.value <= row.createdAt;
      && (Latency(db, d).Some? <==> finished)
      && (finished ==> db.runs[db.candidates[row.candidate].run].finishedAt.value + Latency(db, d).value == row.createdAt)
  {
  }
}
