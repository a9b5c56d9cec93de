/** What the rows and counts of an evaluation mean, in terms of the observations and labels themselves. */
module GoldLaws {
  import opened Wrappers
  import opened Fields
  import opened Text
  import opened Domain
  import opened Sorting
  import opened Gold

  // ----- One row

  /** The positions of what satisfies `p`. */
  function Where<T>(s: seq<T>, p: T -> bool): set<nat> { set i: nat | i < |s| && p(s[i]) }

  lemma LastWhere<T>(s: seq<T>, p: T -> bool)
    requires s != []
    ensures var front, n := s[..|s| - 1], |s| - 1;
      Where(s, p) == Where(front, p) + (if p(s[n]) then {n} else {}) && n !in Where(front, p)
  {
    var front := s[..|s| - 1];
    assert forall i: nat :: i < |front| ==> front[i] == s[i];
  }

  function CandidatesIn(os: seq<Observation>, field: Field): set<nat> { Where(os, (o: Observation) => o.field == field) }

  function ValuedIn(os: seq<Observation>, field: Field): set<nat> {
    Where(os, (o: Observation) => o.field == field && o.missing.None?)
  }

  function MissingIn(os: seq<Observation>, field: Field): set<nat> {
    Where(os, (o: Observation) => o.field == field && o.missing.Some?)
  }

  /** The outcome the label and the valued candidates of its field call for. */
  ghost predicate Deserved(wanted: Label, os: seq<Observation>, outcome: Outcome) {
    var valued := ValuedIn(os, wanted.field);
    var agrees := exists k: nat :: k < |os| && valued == {k} && os[k].value == wanted.value && os[k].unit == wanted.unit;
    match outcome
    case CorrectAbstention => wanted.status.Unknown? && valued == {}
    case UnsupportedValue => wanted.status.Unknown? && valued != {}
    case ConflictingCandidates => !wanted.status.Unknown? && |valued| > 1
    case MissingOrAbstained => !wanted.status.Unknown? && valued == {}
    case ExactMatch => !wanted.status.Unknown? && agrees
    case ValueMismatch => !wanted.status.Unknown? && |valued| == 1 && !agrees
  }

  lemma LastPosition(os: seq<Observation>, field: Field)
    requires os != []
    ensures var front, last, n := os[..|os| - 1], os[|os| - 1], |os| - 1;
      && CandidatesIn(os, field) == CandidatesIn(front, field) + (if last.field == field then {n} else {})
      && ValuedIn(os, field) == ValuedIn(front, field) + (if last.field == field && last.missing.None? then {n} else {})
      && MissingIn(os, field) == MissingIn(front, field) + (if last.field == field && last.missing.Some? then {n} else {})
      && n !in CandidatesIn(front, field) && n !in ValuedIn(front, field) && n !in MissingIn(front, field)
  {
    LastWhere(os, (o: Observation) => o.field == field);
    LastWhere(os, (o: Observation) => o.field == field && o.missing.None?);
    LastWhere(os, (o: Observation) => o.field == field && o.missing.Some?);
    hide Where;
  }

  lemma LastOfField(os: seq<Observation>, field: Field)
    requires os != []
    ensures var front, last := os[..|os| - 1], os[|os| - 1];
      && ForField(os, field) == ForField(front, field) + (if last.field == field then [last] else [])
      && Valued(ForField(os, field)) ==
          Valued(ForField(front, field)) + (if last.field == field && last.missing.None? then [last] else [])
  {
    var front, last := os[..|os| - 1], os[|os| - 1];
    if last.field == field {
      assert ForField(os, field)[..|ForField(os, field)| - 1] == ForField(front, field);
    } else {
      assert ForField(os, field) == ForField(front, field);
    }
  }

  /** The lists the evaluation filters are as long as these sets. */
  lemma {:induction false} ListsAreSets(os: seq<Observation>, field: Field)
    ensures |ForField(os, field)| == |CandidatesIn(os, field)| == |ValuedIn(os, field)| + |MissingIn(os, field)|
    ensures |Valued(ForField(os, field))| == |ValuedIn(os, field)|
  {
    hide ForField, Valued;
    if os != [] {
      hide CandidatesIn, ValuedIn, MissingIn;
      ListsAreSets(os[..|os| - 1], field);
      LastPosition(os, field);
      LastOfField(os, field);
    } else {
      assert ForField(os, field) == [] && Valued([]) == [] by { NothingListed(field); }
      assert CandidatesIn(os, field) == {} && ValuedIn(os, field) == {} && MissingIn(os, field) == {};
    }
  }

  lemma NothingListed(field: Field)
    ensures ForField([], field) == [] && Valued([]) == []
  {
  }

  lemma OneOrOther(before: set<nat>, added: bool, n: nat, k: nat)
    requires before + (if added then {n} else {}) == {k} && n !in before
    ensures if k == n then added && before == {} else !added && before == {k}
  {
    assert k in before + (if added then {n} else {});
    if added { assert n in before + {n}; }
    assert forall x :: x in before ==> x in {k};
  }

  /** A single valued candidate is the list of them. */
  lemma {:induction false} SingleValued(os: seq<Observation>, field: Field, k: nat)
    requires k < |os| && ValuedIn(os, field) == {k}
    ensures Valued(ForField(os, field)) == [os[k]]
  {
    var front, n := os[..|os| - 1], |os| - 1;
    hide Valued, ForField, CandidatesIn, MissingIn, ValuedIn;
    LastPosition(os, field);
    LastOfField(os, field);
    OneOrOther(ValuedIn(front, field), os[n].field == field && os[n].missing.None?, n, k);
    if k == n {
      ListsAreSets(front, field);
    } else {
      SingleValued(front, field, k);
    }
  }

  /** Some valued candidate of the field carries evidence. */
  ghost predicate AnyEvidence(os: seq<Observation>, field: Field) {
    exists k: nat :: k < |os| && os[k].field == field && os[k].missing.None? && os[k].evidence != []
  }

  lemma {:induction false} EvidenceIsEvidenced(os: seq<Observation>, field: Field)
    ensures HasEvidence(Valued(ForField(os, field))) <==> AnyEvidence(os, field)
  {
    if os == [] {
      NothingListed(field);
    } else {
      var front, n := os[..|os| - 1], |os| - 1;
      EvidenceIsEvidenced(front, field);
      LastOfField(os, field);
      EvidencedStep(os, field);
      hide ForField, Valued, AnyEvidence;
      var before := Valued(ForField(front, field));
      MoreEvidence(before, os[n]);
      assert before + [] == before;
      hide HasEvidence;
    }
  }

  lemma EvidencedStep(os: seq<Observation>, field: Field)
    requires os != []
    ensures var front, last := os[..|os| - 1], os[|os| - 1];
      AnyEvidence(os, field) <==> AnyEvidence(front, field) || (last.field == field && last.missing.None? && last.evidence != [])
  {
    var front := os[..|os| - 1];
    assert forall i: nat :: i < |front| ==> front[i] == os[i];
  }

  lemma MoreEvidence(valued: seq<Observation>, last: Observation)
    ensures HasEvidence(valued + [last]) <==> HasEvidence(valued) || last.evidence != []
  {
    assert (valued + [last])[|valued|] == last;
    assert forall i :: 0 <= i < |valued| ==> (valued + [last])[i] == valued[i];
  }

  lemma Positive(s: set<nat>)
    ensures |s| == 0 <==> s == {}
    ensures |s| == 1 <==> exists k :: s == {k}
  {
    if |s| == 1 {
      var k :| k in s;
      assert |s - {k}| == 0;
      assert s == {k};
    }
  }

  lemma OutcomeIsDeserved(wanted: Label, os: seq<Observation>)
    ensures Deserved(wanted, os, OutcomeFor(wanted, Valued(ForField(os, wanted.field))))
  {
    var field := wanted.field;
    ListsAreSets(os, field);
    Positive(ValuedIn(os, field));
    if |ValuedIn(os, field)| == 1 {
      var k :| ValuedIn(os, field) == {k};
      assert k in ValuedIn(os, field) && k < |os| by { assert k in {k}; }
      SingleValued(os, field, k);
      assert forall j: nat :: ValuedIn(os, field) == {j} ==> j in {k};
    }
    hide Valued, ForField, ValuedIn, CandidatesIn, MissingIn;
  }

  /** One row as the observations of its field make it. */
  ghost predicate RowMeans(row: EvalRow, wanted: Label, os: seq<Observation>) {
    && row.field == wanted.field && row.gold == wanted.status
    && Deserved(wanted, os, row.outcome)
    && row.candidates == |CandidatesIn(os, wanted.field)| && row.missing == |MissingIn(os, wanted.field)|
    && (row.evidence <==> AnyEvidence(os, wanted.field))
  }

  /** A frozen sample is evaluated against an extraction of its own document, label by label; nothing else is. */
  lemma EvaluationMeans(gold: Sample, e: Extraction)
    ensures var r := Evaluated(gold, e);
      && (r == Err(NotFrozen) <==> gold.status != Frozen)
      && (r == Err(IdentityDiffers) <==>
            gold.status == Frozen && !(gold.project == e.project && gold.registry == e.registry && gold.version == e.version
                                       && gold.parsed == e.parsed))
      && (r.Ok? ==>
            && r.value.sample == Some(gold.id) && r.value.version == Some(gold.datasetVersion) && r.value.status == Frozen
            && |r.value.rows| == |gold.labels|
            && forall i :: 0 <= i < |gold.labels| ==> RowMeans(r.value.rows[i], gold.labels[i], e.observations))
  {
    forall i | 0 <= i < |gold.labels|
      ensures RowMeans(RowAt(gold, e, i), gold.labels[i], e.observations)
    {
      var wanted := gold.labels[i];
      OutcomeIsDeserved(wanted, e.observations);
      ListsAreSets(e.observations, wanted.field);
      EvidenceIsEvidenced(e.observations, wanted.field);
      hide Deserved, Valued, ForField, CandidatesIn, MissingIn, ValuedIn, AnyEvidence, OutcomeFor, HasEvidence;
    }
    hide RowMeans, RowAt;
  }

  // ----- Counts

  function Those(rows: seq<EvalRow>, p: EvalRow -> bool): nat { |Where(rows, p)| }

  /** Each count is the number of rows of its kind. */
  ghost predicate CountsMean(c: Counts, rows: seq<EvalRow>) {
    && c.evaluated == |rows|
    && c.agreement == Those(rows, (r: EvalRow) => r.outcome == ExactMatch || r.outcome == CorrectAbstention)
    && c.confirmed == Those(rows, (r: EvalRow) => r.gold == Confirmed)
    && c.exact == Those(rows, (r: EvalRow) => r.gold == Confirmed && r.outcome == ExactMatch)
    && c.unknown == Those(rows, (r: EvalRow) => r.gold == Unknown)
    && c.abstained == Those(rows, (r: EvalRow) => r.gold == Unknown && r.outcome == CorrectAbstention)
  }

  lemma OneMore(rows: seq<EvalRow>, p: EvalRow -> bool)
    requires rows != []
    ensures Those(rows, p) == Those(rows[..|rows| - 1], p) + if p(rows[|rows| - 1]) then 1 else 0
  {
    LastWhere(rows, p);
    hide Where;
  }

  lemma {:induction false} CountsAreNumbers(rows: seq<EvalRow>)
    ensures CountsMean(CountsOf(rows), rows)
  {
    if rows != [] {
      CountsAreNumbers(rows[..|rows| - 1]);
      OneMore(rows, (r: EvalRow) => r.outcome == ExactMatch || r.outcome == CorrectAbstention);
      OneMore(rows, (r: EvalRow) => r.gold == Confirmed);
      OneMore(rows, (r: EvalRow) => r.gold == Confirmed && r.outcome == ExactMatch);
      OneMore(rows, (r: EvalRow) => r.gold == Unknown);
      OneMore(rows, (r: EvalRow) => r.gold == Unknown && r.outcome == CorrectAbstention);
      CountsStep(rows);
      hide CountsOf, Those;
    }
  }

  lemma {:induction false} EvidenceCounts(rows: seq<EvalRow>)
    ensures Evidenced(rows) == Those(rows, (r: EvalRow) => r.evidence)
  {
    if rows != [] {
      EvidenceCounts(rows[..|rows| - 1]);
      OneMore(rows, (r: EvalRow) => r.evidence);
      hide Those;
    }
  }

  /** Rates are their part of their whole, and absent where the whole is nothing. */
  lemma RatesMean(c: Counts)
    ensures var m := MetricsOf(c);
      && m.counts == c
      && (if c.evaluated == 0 then m.accuracy == None else m.accuracy == Some(c.agreement as real / c.evaluated as real))
      && (if c.confirmed == 0 then m.confirmedAccuracy == None else m.confirmedAccuracy == Some(c.exact as real / c.confirmed as real))
      && (if c.unknown == 0 then m.abstentionRate == None else m.abstentionRate == Some(c.abstained as real / c.unknown as real))
  {
  }

  // ----- Aggregates

  /** Why reports are not aggregated: the first that applies of four reasons. */
  lemma AggregateRefusedBecause(dataset: Dataset, reports: seq<EvalReport>, split: Option<Split>)
    requires dataset.Valid()
    ensures var r := Aggregated(dataset, reports, split);
      var distinct := forall i, j :: 0 <= i < j < |reports| ==> reports[i].sample != reports[j].sample;
      && (r == Err(DatasetNotFrozen) <==> !dataset.frozen)
      && (r == Err(DuplicateReports) <==> dataset.frozen && !distinct)
      && (r == Err(NotCovered) <==> dataset.frozen && distinct && !NamesSamples(dataset, reports, split))
      && (r == Err(ReportDiffers) <==>
            && dataset.frozen && distinct && NamesSamples(dataset, reports, split)
            && !forall x :: x in reports ==> x.version == Some(dataset.version) && x.status == Frozen)
  {
    CoversIff(dataset, reports, split);
    AggregateIsTotal(dataset, reports, split);
    hide Dataset.Valid, NamesSamples, Covers, SampleIds, InIdOrder, Total, Flattened, CountsOf;
  }

  /** The identifiers of an aggregate are those of the selected samples, each once, in order. */
  lemma SampleIdsInOrder(dataset: Dataset, split: Option<Split>)
    requires dataset.Valid()
    ensures SortedBy(StrLeq, SampleIds(dataset, split))
    ensures forall id :: id in SampleIds(dataset, split) <==>
      exists i :: 0 <= i < |dataset.samples| && dataset.samples[i].id == id && (split.None? || dataset.samples[i].split == split.value)
  {
    SampleIdsAre(dataset, split);
    StringsInOrder();
    SortSorts(StrLeq, IdsOf(Selected(dataset.samples, split)));
    hide StrLeq, Selected, IdsOf, Dataset.Valid;
  }

  lemma StringsInOrder()
    ensures TotalPreorder(StrLeq)
  {
    forall a: string, b: string
      ensures StrLeq(a, b) || StrLeq(b, a)
    {
      StrLessTrichotomy(a, b);
    }
    forall a: string, b: string, c: string | StrLeq(a, b) && StrLeq(b, c)
      ensures StrLeq(a, c)
    {
      StrLeqTransitive(a, b, c);
    }
  }
}
