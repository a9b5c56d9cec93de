/**
 Agreement with frozen human labels: one sample against one extraction, and complete reports summed over a
 dataset or one of its splits.
 */
module Gold {
  import opened Wrappers
  import opened Fields
  import opened Text
  import opened Domain
  import opened Rates
  import opened Sorting

  datatype LabelStatus = Confirmed | Unknown | Conflicting

  datatype Label = Label(field: Field, status: LabelStatus, value: Json, unit: Option<string>, evidence: seq<Evidence>) {
    predicate Valid() {
      if status.Confirmed? then value != JNull && evidence != [] else value == JNull && evidence == []
    }
  }

  datatype Split = Development | Validation | Test

  datatype GoldStatus = Draft | AdjudicationRequired | Frozen

  datatype Sample = Sample(
    datasetVersion: string, id: string, split: Split, registry: Registry, project: string, version: Id, parsed: Id,
    labels: seq<Label>, status: GoldStatus)
  {
    predicate Valid() {
      && labels != []
      && (forall i :: 0 <= i < |labels| ==> labels[i].Valid())
      && (forall i, j :: 0 <= i < j < |labels| ==> labels[i].field != labels[j].field)
      && (status.Frozen? ==> forall i :: 0 <= i < |labels| ==> !labels[i].status.Conflicting?)
    }
  }

  datatype Dataset = Dataset(version: string, samples: seq<Sample>, frozen: bool) {
    predicate Valid() {
      && samples != []
      && (forall i :: 0 <= i < |samples| ==>
            samples[i].Valid() && samples[i].datasetVersion == version && (frozen ==> samples[i].status.Frozen?))
      && (forall i, j :: 0 <= i < j < |samples| ==> samples[i].id != samples[j].id)
      && (forall i, j :: 0 <= i < j < |samples| && samples[i].project == samples[j].project ==> samples[i].split == samples[j].split)
    }
  }

  // ----- One sample

  datatype Outcome =
    | CorrectAbstention | UnsupportedValue | ConflictingCandidates | MissingOrAbstained | ExactMatch | ValueMismatch

  datatype EvalRow = EvalRow(field: Field, gold: LabelStatus, outcome: Outcome, candidates: nat, evidence: bool, missing: nat)

  datatype EvalReport = EvalReport(sample: Option<string>, version: Option<string>, status: GoldStatus, rows: seq<EvalRow>)

  datatype EvalError = NotFrozen | IdentityDiffers

  function ForField(observations: seq<Observation>, field: Field): seq<Observation> {
    if observations == [] then []
    else
      var last := observations[|observations| - 1];
      ForField(observations[..|observations| - 1], field) + if last.field == field then [last] else []
  }

  function Valued(candidates: seq<Observation>): seq<Observation> {
    if candidates == [] then []
    else
      var last := candidates[|candidates| - 1];
      Valued(candidates[..|candidates| - 1]) + if last.missing.None? then [last] else []
  }

  predicate HasEvidence(valued: seq<Observation>) { exists i :: 0 <= i < |valued| && valued[i].evidence != [] }

  function OutcomeFor(wanted: Label, valued: seq<Observation>): Outcome {
    if wanted.status.Unknown? then if valued == [] then CorrectAbstention else UnsupportedValue
    else if |valued| > 1 then ConflictingCandidates
    else if valued == [] then MissingOrAbstained
    else if valued[0].value == wanted.value && valued[0].unit == wanted.unit then ExactMatch
    else ValueMismatch
  }

  function RowFor(wanted: Label, candidates: seq<Observation>): EvalRow {
    var valued := Valued(candidates);
    ValuedShorter(candidates);
    EvalRow(wanted.field, wanted.status, OutcomeFor(wanted, valued), |candidates|, HasEvidence(valued), |candidates| - |valued|)
  }

  lemma {:induction false} ValuedShorter(candidates: seq<Observation>)
    ensures |Valued(candidates)| <= |candidates|
  {
    if candidates != [] { ValuedShorter(candidates[..|candidates| - 1]); }
  }

  predicate SameIdentity(gold: Sample, e: Extraction) {
    gold.project == e.project && gold.registry == e.registry && gold.version == e.version && gold.parsed == e.parsed
  }

  function RowAt(gold: Sample, e: Extraction, i: nat): EvalRow
    requires i < |gold.labels|
  {
    RowFor(gold.labels[i], ForField(e.observations, gold.labels[i].field))
  }

  function RowsFor(gold: Sample, e: Extraction): seq<EvalRow> {
    seq(|gold.labels|, i requires 0 <= i < |gold.labels| => RowAt(gold, e, i))
  }

  function Evaluated(gold: Sample, e: Extraction): Result<EvalReport, EvalError> {
    if !gold.status.Frozen? then Err(NotFrozen)
    else if !SameIdentity(gold, e) then Err(IdentityDiffers)
    else Ok(EvalReport(Some(gold.id), Some(gold.datasetVersion), gold.status, RowsFor(gold, e)))
  }

  /** Group the observations in a dictionary, then one row per label; the metrics count the rows. */
  method EvaluateAgainstGold(gold: Sample, e: Extraction) returns (r: Result<(EvalReport, Metrics, Option<real>), EvalError>)
    ensures r.Ok? == Evaluated(gold, e).Ok?
    ensures r.Ok? ==> r.value.0 == Evaluated(gold, e).value && r.value.1 == MetricsOf(CountsOf(r.value.0.rows))
    ensures r.Ok? ==> r.value.2 == Share(Evidenced(r.value.0.rows), |r.value.0.rows|) && InUnit(r.value.2)
    ensures r.Err? ==> r.error == Evaluated(gold, e).error
  {
    hide RowsFor, CountsOf;
    if !gold.status.Frozen? {
      return Err(NotFrozen);
    }
    if !SameIdentity(gold, e) {
      return Err(IdentityDiffers);
    }
    var rows := EvaluationRows(gold, e);
    var counts := CountRows(rows);
    EvidencedAtMost(rows);
    var coverage := Share(Evidenced(rows), |rows|);
    r := Ok((EvalReport(Some(gold.id), Some(gold.datasetVersion), gold.status, rows), MetricsOf(counts), coverage));
  }

  /** Rows with evidence behind a valued candidate. */
  function Evidenced(rows: seq<EvalRow>): nat {
    if rows == [] then 0 else Evidenced(rows[..|rows| - 1]) + One(rows[|rows| - 1].evidence)
  }

  lemma {:induction false} EvidencedAtMost(rows: seq<EvalRow>)
    ensures Evidenced(rows) <= |rows|
  {
    if rows != [] { EvidencedAtMost(rows[..|rows| - 1]); }
  }

  method EvaluationRows(gold: Sample, e: Extraction) returns (rows: seq<EvalRow>)
    ensures rows == RowsFor(gold, e)
  {
    var grouped := Grouped(e.observations);
    hide RowFor, ForField, RowAt;
    rows := [];
    for i := 0 to |gold.labels|
      invariant rows == RowsFor(gold, e)[..i]
    {
      var wanted := gold.labels[i];
      var candidates := if wanted.field in grouped then grouped[wanted.field] else [];
      RowAtIs(gold, e, i);
      rows := rows + [RowFor(wanted, candidates)];
    }
  }

  lemma RowAtIs(gold: Sample, e: Extraction, i: nat)
    requires i < |gold.labels|
    ensures RowsFor(gold, e)[i] == RowFor(gold.labels[i], ForField(e.observations, gold.labels[i].field))
  {
  }

  method CountRows(rows: seq<EvalRow>) returns (counts: Counts)
    ensures counts == CountsOf(rows)
  {
    counts := NOTHING;
    for i := 0 to |rows|
      invariant counts == CountsOf(rows[..i])
    {
      hide CountRow, Plus;
      assert rows[..i + 1][..i] == rows[..i];
      counts := Plus(counts, CountRow(rows[i]));
    }
    assert rows[..|rows|] == rows;
  }

  method Grouped(observations: seq<Observation>) returns (grouped: map<Field, seq<Observation>>)
    ensures forall f :: (if f in grouped then grouped[f] else []) == ForField(observations, f)
  {
    grouped := map[];
    for i := 0 to |observations|
      invariant forall f :: (if f in grouped then grouped[f] else []) == ForField(observations[..i], f)
    {
      var o := observations[i];
      assert observations[..i + 1][..i] == observations[..i];
      grouped := grouped[o.field := (if o.field in grouped then grouped[o.field] else []) + [o]];
    }
    assert observations[..|observations|] == observations;
  }

  // ----- Counting

  datatype Counts = Counts(evaluated: nat, agreement: nat, confirmed: nat, exact: nat, unknown: nat, abstained: nat)

  const NOTHING := Counts(0, 0, 0, 0, 0, 0)

  function Plus(a: Counts, b: Counts): Counts {
    Counts(a.evaluated + b.evaluated, a.agreement + b.agreement, a.confirmed + b.confirmed, a.exact + b.exact,
           a.unknown + b.unknown, a.abstained + b.abstained)
  }

  function One(b: bool): nat { if b then 1 else 0 }

  /** What one row adds; an exact match counts as such only on a confirmed wanted, an abstention only on an unknown one. */
  function CountRow(r: EvalRow): Counts {
    Counts(1, One(r.outcome.ExactMatch? || r.outcome.CorrectAbstention?),
           One(r.gold.Confirmed?), One(r.gold.Confirmed? && r.outcome.ExactMatch?),
           One(r.gold.Unknown?), One(r.gold.Unknown? && r.outcome.CorrectAbstention?))
  }

  /** The total of `count` over a list, latest element last. */
  function Sum<T>(count: T -> Counts, s: seq<T>): Counts {
    if s == [] then NOTHING else Plus(Sum(count, s[..|s| - 1]), count(s[|s| - 1]))
  }

  function CountsOf(rows: seq<EvalRow>): Counts { Sum(CountRow, rows) }

  function CountReport(report: EvalReport): Counts { CountsOf(report.rows) }

  lemma PlusLaws(a: Counts, b: Counts, c: Counts)
    ensures Plus(Plus(a, b), c) == Plus(a, Plus(b, c))
    ensures Plus(a, b) == Plus(b, a)
    ensures Plus(a, NOTHING) == a && Plus(NOTHING, a) == a
  {
  }

  lemma {:induction false} SumAppend<T>(count: T -> Counts, a: seq<T>, b: seq<T>)
    ensures Sum(count, a + b) == Plus(Sum(count, a), Sum(count, b))
  {
    hide Plus;
    if b == [] {
      assert a + b == a;
      PlusLaws(Sum(count, a), NOTHING, NOTHING);
    } else {
      var last := |b| - 1;
      SumAppend(count, a, b[..last]);
      assert (a + b)[..|a + b| - 1] == a + b[..last];
      PlusLaws(Sum(count, a), Sum(count, b[..last]), count(b[last]));
    }
  }

  lemma SumOne<T>(count: T -> Counts, x: T)
    ensures Sum(count, [x]) == count(x)
  {
    assert [x][..0] == [];
    PlusLaws(count(x), NOTHING, NOTHING);
    hide Plus;
    assert Sum(count, [x]) == Plus(Sum(count, []), count(x));
  }

  /** `a` without its last element is `b` without one occurrence of it. */
  lemma WithoutLast<T>(a: seq<T>, b: seq<T>) returns (before: seq<T>, after: seq<T>)
    requires a != [] && multiset(a) == multiset(b)
    ensures b == before + ([a[|a| - 1]] + after)
    ensures multiset(a[..|a| - 1]) == multiset(before + after)
  {
    var front, x := a[..|a| - 1], a[|a| - 1];
    assert a == front + [x];
    assert x in multiset(b);
    var k :| 0 <= k < |b| && b[k] == x;
    before, after := b[..k], b[k + 1..];
    assert b == before + ([x] + after);
    assert multiset(front) + multiset{x} == multiset(before + after) + multiset{x};
    OneLess(multiset(front), multiset(before + after), x);
  }

  lemma OneLess<T>(m: multiset<T>, n: multiset<T>, x: T)
    requires m + multiset{x} == n + multiset{x}
    ensures m == n
  {
    assert m == (m + multiset{x}) - multiset{x};
    assert n == (n + multiset{x}) - multiset{x};
  }

  /** Totals do not depend on the order of the elements. */
  lemma {:induction false} SumRearranged<T>(count: T -> Counts, a: seq<T>, b: seq<T>)
    requires multiset(a) == multiset(b)
    ensures Sum(count, a) == Sum(count, b)
    decreases |a|
  {
    SameSize(a, b);
    if a != [] {
      var front, x := a[..|a| - 1], a[|a| - 1];
      assert Sum(count, a) == Plus(Sum(count, front), count(x));
      hide Plus, Sum;
      var before, after := WithoutLast(a, b);
      SumRearranged(count, front, before + after);
      SumAppend(count, before, after);
      SumAppend(count, before, [x] + after);
      SumAppend(count, [x], after);
      SumOne(count, x);
      Moved(Sum(count, before), count(x), Sum(count, after));
    }
  }

  lemma Moved(a: Counts, x: Counts, b: Counts)
    ensures Plus(Plus(a, b), x) == Plus(a, Plus(x, b))
  {
  }

  datatype Metrics = Metrics(counts: Counts, accuracy: Option<real>, confirmedAccuracy: Option<real>, abstentionRate: Option<real>)

  function MetricsOf(c: Counts): Metrics {
    Metrics(c, Share(c.agreement, c.evaluated), Share(c.exact, c.confirmed), Share(c.abstained, c.unknown))
  }

  /** Confirmed and unknown labels are all labels; agreement is exact matches plus abstentions, each on its own kind. */
  predicate Conserved(c: Counts) {
    && c.evaluated == c.confirmed + c.unknown
    && c.agreement == c.exact + c.abstained
    && c.exact <= c.confirmed && c.abstained <= c.unknown
  }

  /** A row as the evaluation makes it: the outcome belongs to the label's kind. */
  predicate ProperRow(r: EvalRow) {
    match r.gold
    case Confirmed => !r.outcome.CorrectAbstention? && !r.outcome.UnsupportedValue?
    case Unknown => r.outcome.CorrectAbstention? || r.outcome.UnsupportedValue?
    case Conflicting => false
  }

  predicate ProperRows(rows: seq<EvalRow>) { forall i :: 0 <= i < |rows| ==> ProperRow(rows[i]) }

  lemma {:induction false} ProperRowsConserve(rows: seq<EvalRow>)
    requires ProperRows(rows)
    ensures Conserved(CountsOf(rows)) && CountsOf(rows).evaluated == |rows|
  {
    if rows != [] {
      var last := |rows| - 1;
      ProperRowsConserve(rows[..last]);
      assert CountsOf(rows) == Plus(CountsOf(rows[..last]), CountRow(rows[last]));
    }
  }

  /** One frozen sample: every label is counted once and the counts are conserved. */
  lemma EvaluationConserves(gold: Sample, e: Extraction)
    requires gold.Valid() && Evaluated(gold, e).Ok?
    ensures var rows := Evaluated(gold, e).value.rows;
      ProperRows(rows) && Conserved(CountsOf(rows)) && CountsOf(rows).evaluated == |gold.labels|
  {
    hide Valued, ForField;
    ProperRowsConserve(RowsFor(gold, e));
  }

  lemma ConservedRates(c: Counts)
    requires Conserved(c)
    ensures var m := MetricsOf(c); InUnit(m.accuracy) && InUnit(m.confirmedAccuracy) && InUnit(m.abstentionRate)
  {
    hide Share, InUnit;
  }

  // ----- A dataset

  function Selected(samples: seq<Sample>, split: Option<Split>): seq<Sample> {
    if samples == [] then []
    else
      var last := samples[|samples| - 1];
      Selected(samples[..|samples| - 1], split) + if split.None? || last.split == split.value then [last] else []
  }

  function IdsOf(samples: seq<Sample>): seq<string> { seq(|samples|, i requires 0 <= i < |samples| => samples[i].id) }

  predicate DistinctIds(reports: seq<EvalReport>) { forall i, j :: 0 <= i < j < |reports| ==> reports[i].sample != reports[j].sample }

  predicate Reported(reports: seq<EvalReport>, id: string) { exists r :: r in reports && r.sample == Some(id) }

  /** The reports name exactly the given samples. */
  ghost predicate Covers(reports: seq<EvalReport>, ids: seq<string>) {
    && (forall r :: r in reports ==> r.sample.Some? && r.sample.value in ids)
    && (forall id :: id in ids ==> Reported(reports, id))
  }

  datatype AggregateError = DatasetNotFrozen | DuplicateReports | NotCovered | ReportDiffers

  datatype Aggregate = Aggregate(split: Option<Split>, ids: seq<string>, samples: nat, metrics: Metrics)

  /** The report of one sample; where several are given, the last. */
  function ReportOf(reports: seq<EvalReport>, id: string): (r: EvalReport)
    requires Reported(reports, id)
    ensures r in reports && r.sample == Some(id)
  {
    var last := reports[|reports| - 1];
    if last.sample == Some(id) then last else ReportOf(reports[..|reports| - 1], id)
  }

  function InIdOrder(reports: seq<EvalReport>, ids: seq<string>): seq<EvalReport>
    requires Covers(reports, ids)
  {
    assert forall i :: 0 <= i < |ids| ==> ids[i] in ids;
    seq(|ids|, i requires 0 <= i < |ids| => ReportOf(reports, ids[i]))
  }

  predicate SameDataset(dataset: Dataset, report: EvalReport) { report.version == Some(dataset.version) && report.status.Frozen? }

  function Flattened(reports: seq<EvalReport>): seq<EvalRow> {
    if reports == [] then [] else Flattened(reports[..|reports| - 1]) + reports[|reports| - 1].rows
  }

  ghost function Aggregated(dataset: Dataset, reports: seq<EvalReport>, split: Option<Split>): Result<Aggregate, AggregateError> {
    if !dataset.frozen then Err(DatasetNotFrozen)
    else if !DistinctIds(reports) then Err(DuplicateReports)
    else if !Covers(reports, SampleIds(dataset, split)) then Err(NotCovered)
    else OverRows(dataset, InIdOrder(reports, SampleIds(dataset, split)), split)
  }

  predicate AllOfDataset(dataset: Dataset, rows: seq<EvalReport>) { forall r :: r in rows ==> SameDataset(dataset, r) }

  function OverRows(dataset: Dataset, rows: seq<EvalReport>, split: Option<Split>): Result<Aggregate, AggregateError> {
    if !AllOfDataset(dataset, rows) then Err(ReportDiffers)
    else Ok(Aggregate(split, SampleIds(dataset, split), |rows|, MetricsOf(CountsOf(Flattened(rows)))))
  }

  // ----- Totals do not depend on order

  function Total(reports: seq<EvalReport>): Counts { Sum(CountReport, reports) }

  lemma {:induction false} FlattenedTotal(reports: seq<EvalReport>)
    ensures CountsOf(Flattened(reports)) == Total(reports)
  {
    if reports != [] {
      var last := |reports| - 1;
      hide Plus;
      FlattenedTotal(reports[..last]);
      SumAppend(CountRow, Flattened(reports[..last]), reports[last].rows);
    }
  }

  /** Two lists without repetition and with the same members are rearrangements of each other. */
  lemma SameMembers<T(!new)>(a: seq<T>, b: seq<T>)
    requires Distinct(a) && Distinct(b) && forall x :: x in a <==> x in b
    ensures multiset(a) == multiset(b)
  {
    forall x
      ensures multiset(a)[x] == multiset(b)[x]
    {
      DistinctOccurOnce(a, x);
      DistinctOccurOnce(b, x);
      assert x in multiset(a) <==> x in a;
      assert x in multiset(b) <==> x in b;
    }
  }

  /** Choosing the reports in the order of the sample identifiers neither drops nor repeats one. */
  lemma InIdOrderRearranges(reports: seq<EvalReport>, ids: seq<string>)
    requires DistinctIds(reports) && Distinct(ids) && Covers(reports, ids)
    ensures multiset(InIdOrder(reports, ids)) == multiset(reports)
  {
    var chosen := InIdOrder(reports, ids);
    forall i | 0 <= i < |ids|
      ensures chosen[i].sample == Some(ids[i]) && chosen[i] in reports
    {
    }
    forall x | x in reports
      ensures x in chosen
    {
      var k :| 0 <= k < |ids| && x.sample == Some(ids[k]);
      SameIdSameReport(reports, x, chosen[k]);
      assert chosen[k] == x;
    }
    SameMembers(chosen, reports);
  }

  lemma SameIdSameReport(reports: seq<EvalReport>, x: EvalReport, y: EvalReport)
    requires DistinctIds(reports) && x in reports && y in reports && x.sample == y.sample
    ensures x == y
  {
    var i :| 0 <= i < |reports| && reports[i] == x;
    var j :| 0 <= j < |reports| && reports[j] == y;
  }

  // ----- What an aggregate is

  /** `id` is a sample of the dataset, and of the split if one is selected. */
  ghost predicate Named(samples: seq<Sample>, split: Option<Split>, id: string) {
    exists s :: s in samples && s.id == id && (split.None? || s.split == split.value)
  }

  lemma {:induction false} InSelected(samples: seq<Sample>, split: Option<Split>, x: Sample)
    ensures x in Selected(samples, split) <==> x in samples && (split.None? || x.split == split.value)
  {
    if samples != [] {
      var front, last := samples[..|samples| - 1], samples[|samples| - 1];
      InSelected(front, split, x);
      assert x in samples <==> x in front || x == last;
    }
  }

  lemma {:induction false} SelectedDistinct(samples: seq<Sample>, split: Option<Split>)
    requires forall i, j :: 0 <= i < j < |samples| ==> samples[i].id != samples[j].id
    ensures Distinct(IdsOf(Selected(samples, split)))
  {
    if samples != [] {
      var front, last := samples[..|samples| - 1], samples[|samples| - 1];
      SelectedDistinct(front, split);
      var before := Selected(front, split);
      forall k | 0 <= k < |before|
        ensures before[k].id != last.id
      {
        InSelected(front, split, before[k]);
        assert before[k] in front;
      }
      assert IdsOf(before + [last]) == IdsOf(before) + [last.id];
      assert Selected(samples, split) == before || Selected(samples, split) == before + [last];
    }
  }

  function SampleIds(dataset: Dataset, split: Option<Split>): seq<string> {
    Sort(StrLeq, IdsOf(Selected(dataset.samples, split)))
  }

  lemma SampleIdsAre(dataset: Dataset, split: Option<Split>)
    requires dataset.Valid()
    ensures Distinct(SampleIds(dataset, split))
    ensures forall id :: id in SampleIds(dataset, split) <==> Named(dataset.samples, split, id)
  {
    var selected := Selected(dataset.samples, split);
    var ids, sorted := IdsOf(selected), SampleIds(dataset, split);
    SelectedDistinct(dataset.samples, split);
    DistinctRearranged(ids, sorted);
    SameElements(ids, sorted);
    hide SampleIds, Dataset.Valid;
    forall id
      ensures id in ids <==> Named(dataset.samples, split, id)
    {
      if id in ids {
        var k :| 0 <= k < |ids| && ids[k] == id;
        InSelected(dataset.samples, split, selected[k]);
        assert selected[k] in dataset.samples;
      }
      if s :| s in dataset.samples && s.id == id && (split.None? || s.split == split.value) {
        InSelected(dataset.samples, split, s);
        var k :| 0 <= k < |selected| && selected[k] == s;
        assert ids[k] == id;
      }
    }
  }

  /** Complete, unrepeated reports of this frozen dataset, one for each selected sample. */
  ghost predicate Complete(dataset: Dataset, reports: seq<EvalReport>, split: Option<Split>) {
    && dataset.frozen && DistinctIds(reports) && NamesSamples(dataset, reports, split) && AllOfDataset(dataset, reports)
  }

  ghost predicate NamesSamples(dataset: Dataset, reports: seq<EvalReport>, split: Option<Split>) {
    && (forall r :: r in reports ==> r.sample.Some? && Named(dataset.samples, split, r.sample.value))
    && (forall id :: Named(dataset.samples, split, id) ==> Reported(reports, id))
  }

  lemma CoversIff(dataset: Dataset, reports: seq<EvalReport>, split: Option<Split>)
    requires dataset.Valid()
    ensures Covers(reports, SampleIds(dataset, split)) <==> NamesSamples(dataset, reports, split)
    ensures Distinct(SampleIds(dataset, split))
  {
    SampleIdsAre(dataset, split);
    hide Dataset.Valid, Named, SampleIds, Reported, Distinct;
  }

  /** Aggregation succeeds exactly on complete reports, and then its counts are their total. */
  lemma AggregateIsTotal(dataset: Dataset, reports: seq<EvalReport>, split: Option<Split>)
    requires dataset.Valid()
    ensures Aggregated(dataset, reports, split).Ok? <==> Complete(dataset, reports, split)
    ensures Aggregated(dataset, reports, split).Ok? ==>
      Aggregated(dataset, reports, split).value ==
        Aggregate(split, SampleIds(dataset, split), |reports|, MetricsOf(Total(reports)))
  {
    CoversIff(dataset, reports, split);
    var ids := SampleIds(dataset, split);
    hide Dataset.Valid, SampleIds, DistinctIds, Covers, NamesSamples, SameDataset, Distinct, InIdOrder;
    hide Flattened, CountsOf, Total, MetricsOf;
    if DistinctIds(reports) && Covers(reports, ids) {
      InIdOrderRearranges(reports, ids);
      Rearranged(InIdOrder(reports, ids), reports);
    }
  }

  lemma Rearranged(a: seq<EvalReport>, b: seq<EvalReport>)
    requires multiset(a) == multiset(b)
    ensures |a| == |b| && CountsOf(Flattened(a)) == Total(b)
    ensures forall r :: r in a <==> r in b
  {
    SameSize(a, b);
    FlattenedTotal(a);
    SumRearranged(CountReport, a, b);
    assert forall r :: r in a <==> r in multiset(a);
    assert forall r :: r in b <==> r in multiset(b);
  }

  lemma DistinctIdsRearranged(a: seq<EvalReport>, b: seq<EvalReport>)
    requires multiset(a) == multiset(b) && DistinctIds(a)
    ensures DistinctIds(b)
  {
    DistinctRearranged(a, b);
    Rearranged(a, b);
    forall i, j | 0 <= i < j < |b|
      ensures b[i].sample != b[j].sample
    {
      if b[i].sample == b[j].sample { SameIdSameReport(a, b[i], b[j]); }
    }
  }

  lemma SameCovers(a: seq<EvalReport>, b: seq<EvalReport>, ids: seq<string>)
    requires forall r :: r in a <==> r in b
    ensures Covers(a, ids) == Covers(b, ids)
  {
    assert forall id :: Reported(a, id) == Reported(b, id);
    hide Reported;
  }

  lemma SameChoice(a: seq<EvalReport>, b: seq<EvalReport>, ids: seq<string>)
    requires DistinctIds(a) && Covers(a, ids) && Covers(b, ids) && forall r :: r in a <==> r in b
    ensures InIdOrder(a, ids) == InIdOrder(b, ids)
  {
    forall i | 0 <= i < |ids|
      ensures InIdOrder(a, ids)[i] == InIdOrder(b, ids)[i]
    {
      SameIdSameReport(a, InIdOrder(a, ids)[i], InIdOrder(b, ids)[i]);
    }
  }

  /** The order in which the reports are given is irrelevant, to a refusal as well. */
  lemma ReportOrderIrrelevant(dataset: Dataset, a: seq<EvalReport>, b: seq<EvalReport>, split: Option<Split>)
    requires multiset(a) == multiset(b)
    ensures Aggregated(dataset, a, split) == Aggregated(dataset, b, split)
  {
    Rearranged(a, b);
    if DistinctIds(a) { DistinctIdsRearranged(a, b); }
    if DistinctIds(b) { DistinctIdsRearranged(b, a); }
    var ids := SampleIds(dataset, split);
    SameCovers(a, b, ids);
    if DistinctIds(a) && Covers(a, ids) { SameChoice(a, b, ids); }
    hide DistinctIds, Covers, InIdOrder, SampleIds, OverRows;
  }

  // ----- Conservation over a dataset, and splits

  /** The report is what the evaluation of some frozen sample returned. */
  ghost predicate FromEvaluation(r: EvalReport) { exists gold: Sample, e: Extraction :: gold.Valid() && Evaluated(gold, e) == Ok(r) }

  lemma ConservedPlus(a: Counts, b: Counts)
    requires Conserved(a) && Conserved(b)
    ensures Conserved(Plus(a, b))
  {
  }

  lemma {:induction false} TotalConserved(reports: seq<EvalReport>)
    requires forall r :: r in reports ==> FromEvaluation(r)
    ensures Conserved(Total(reports))
  {
    if reports != [] {
      var front, last := reports[..|reports| - 1], reports[|reports| - 1];
      TotalConserved(front);
      assert last in reports;
      var gold: Sample, e: Extraction :| gold.Valid() && Evaluated(gold, e) == Ok(last);
      EvaluationConserves(gold, e);
      ConservedPlus(Total(front), CountReport(last));
      assert Total(reports) == Plus(Total(front), CountReport(last));
    }
  }

  /**
   Aggregating reports that evaluation made conserves their counts: confirmed plus unknown is everything
   evaluated, and agreement is exact matches on confirmed plus abstentions on unknown labels.
   */
  lemma AggregateConserves(dataset: Dataset, reports: seq<EvalReport>, split: Option<Split>)
    requires dataset.Valid() && Aggregated(dataset, reports, split).Ok?
    requires forall r :: r in reports ==> FromEvaluation(r)
    ensures Conserved(Aggregated(dataset, reports, split).value.metrics.counts)
  {
    AggregateIsTotal(dataset, reports, split);
    TotalConserved(reports);
    hide Conserved, Total, Aggregated, FromEvaluation;
  }

  /** The row's label is of one of the two kinds, and an agreement is the kind's own. */
  predicate OwnKind(r: EvalRow) {
    && !r.gold.Conflicting?
    && (r.outcome.ExactMatch? ==> r.gold.Confirmed?)
    && (r.outcome.CorrectAbstention? ==> r.gold.Unknown?)
  }

  predicate Bounded(c: Counts) {
    c.confirmed + c.unknown <= c.evaluated && c.exact + c.abstained <= c.agreement && c.exact <= c.confirmed && c.abstained <= c.unknown
  }

  lemma RowConserves(c: Counts, r: EvalRow)
    requires Bounded(c)
    ensures Bounded(Plus(c, CountRow(r)))
    ensures Conserved(Plus(c, CountRow(r))) <==> Conserved(c) && OwnKind(r)
  {
  }

  lemma CountsStep(rows: seq<EvalRow>)
    requires rows != []
    ensures CountsOf(rows) == Plus(CountsOf(rows[..|rows| - 1]), CountRow(rows[|rows| - 1]))
  {
    hide Plus, CountRow;
  }

  lemma NoRows()
    ensures Conserved(CountsOf([])) && Bounded(CountsOf([]))
  {
  }

  /** Rows from elsewhere: their counts are conserved exactly when every row is of its own kind. */
  lemma {:induction false} ConservedIff(rows: seq<EvalRow>)
    ensures Conserved(CountsOf(rows)) <==> forall i :: 0 <= i < |rows| ==> OwnKind(rows[i])
    ensures Bounded(CountsOf(rows))
  {
    hide CountsOf, Plus, CountRow, OwnKind, Conserved, Bounded;
    if rows == [] {
      NoRows();
    } else {
      var front, last := rows[..|rows| - 1], rows[|rows| - 1];
      ConservedIff(front);
      CountsStep(rows);
      RowConserves(CountsOf(front), last);
      assert forall i :: 0 <= i < |front| ==> front[i] == rows[i];
    }
  }

  lemma SplitsAreDisjoint(dataset: Dataset, a: seq<EvalReport>, b: seq<EvalReport>, s: Split, t: Split)
    requires dataset.Valid() && Complete(dataset, a, Some(s)) && Complete(dataset, b, Some(t)) && s != t
    ensures forall x, y :: x in a && y in b ==> x.sample != y.sample
  {
    forall x, y | x in a && y in b
      ensures x.sample != y.sample
    {
      OneSplit(dataset.samples, x.sample.value, s, t);
    }
  }

  lemma OneSplit(samples: seq<Sample>, id: string, s: Split, t: Split)
    requires forall i, j :: 0 <= i < j < |samples| ==> samples[i].id != samples[j].id
    requires s != t && Named(samples, Some(s), id)
    ensures !Named(samples, Some(t), id)
  {
    var p :| p in samples && p.id == id && p.split == s;
    var i :| 0 <= i < |samples| && samples[i] == p;
    assert forall j :: 0 <= j < |samples| && samples[j].id == id ==> i == j;
  }

  lemma SplitsComplete(dataset: Dataset, d: seq<EvalReport>, v: seq<EvalReport>, t: seq<EvalReport>)
    requires dataset.Valid()
    requires Complete(dataset, d, Some(Development)) && Complete(dataset, v, Some(Validation)) && Complete(dataset, t, Some(Test))
    ensures Complete(dataset, d + v + t, None)
  {
    SplitsAreDisjoint(dataset, d, v, Development, Validation);
    SplitsAreDisjoint(dataset, d, t, Development, Test);
    SplitsAreDisjoint(dataset, v, t, Validation, Test);
    var all := d + v + t;
    assert forall r :: r in all <==> r in d || r in v || r in t;
    forall id | Named(dataset.samples, None, id)
      ensures Reported(all, id)
    {
      var s :| s in dataset.samples && s.id == id;
      match s.split
      case Development => assert Named(dataset.samples, Some(Development), id);
      case Validation => assert Named(dataset.samples, Some(Validation), id);
      case Test => assert Named(dataset.samples, Some(Test), id);
    }
    hide Dataset.Valid, Reported, SameDataset;
  }

  /** The counts of a whole dataset are the sum of the counts of its three splits. */
  lemma SplitsAddUp(dataset: Dataset, d: seq<EvalReport>, v: seq<EvalReport>, t: seq<EvalReport>)
    requires dataset.Valid()
    requires Aggregated(dataset, d, Some(Development)).Ok?
    requires Aggregated(dataset, v, Some(Validation)).Ok?
    requires Aggregated(dataset, t, Some(Test)).Ok?
    ensures var whole := Aggregated(dataset, d + v + t, None);
      && whole.Ok?
      && whole.value.samples == |d| + |v| + |t|
      && whole.value.metrics.counts ==
          Plus(Plus(Aggregated(dataset, d, Some(Development)).value.metrics.counts,
                    Aggregated(dataset, v, Some(Validation)).value.metrics.counts),
               Aggregated(dataset, t, Some(Test)).value.metrics.counts)
  {
    AggregateIsTotal(dataset, d, Some(Development));
    AggregateIsTotal(dataset, v, Some(Validation));
    AggregateIsTotal(dataset, t, Some(Test));
    SplitsComplete(dataset, d, v, t);
    AggregateIsTotal(dataset, d + v + t, None);
    SumAppend(CountReport, d + v, t);
    SumAppend(CountReport, d, v);
    hide Aggregated, Complete, Plus, Sum, Dataset.Valid, SampleIds;
  }
}
