/** Which findings a project report holds, what each of them names, and when there is no report. */
module ConsistencyLaws {
  import opened Wrappers
  import opened Fields
  import opened Text
  import opened Domain
  import opened Sorting
  import opened Consistency

  // ----- What a finding names

  /** The link is that of a live check of the report for the field. */
  ghost predicate Points(report: Report, field: Field, l: Link) {
    exists i: nat :: i < |report.checks| && LiveFor(report, field, i) && l == Link(report.run, report.checks[i].index)
  }

  lemma LinksStep(report: Report, field: Field, n: nat)
    requires 0 < n <= |report.checks|
    ensures Links(ActiveUpTo(report, field, n)) == Links(ActiveUpTo(report, field, n - 1))
      + if LiveFor(report, field, n - 1) then [Link(report.run, report.checks[n - 1].index)] else []
  {
    var before, after := ActiveUpTo(report, field, n - 1), ActiveUpTo(report, field, n);
    if !LiveFor(report, field, n - 1) { assert after == before; }
  }

  lemma {:induction false} LinksUpTo(report: Report, field: Field, n: nat, l: Link)
    requires n <= |report.checks|
    ensures l in Links(ActiveUpTo(report, field, n)) <==>
      exists i: nat :: i < n && LiveFor(report, field, i) && l == Link(report.run, report.checks[i].index)
  {
    if n > 0 {
      LinksUpTo(report, field, n - 1, l);
      LinksStep(report, field, n);
      hide ActiveUpTo, Links, LiveFor;
    }
  }

  lemma {:induction false} LinksAscend(report: Report, field: Field, n: nat)
    requires report.Valid() && n <= |report.checks|
    ensures var links := Links(ActiveUpTo(report, field, n));
      && (forall a :: 0 <= a < |links| ==> links[a].index < n)
      && (forall a, b :: 0 <= a < b < |links| ==> links[a].index < links[b].index)
  {
    if n > 0 {
      LinksAscend(report, field, n - 1);
      LinksStep(report, field, n);
      assert report.checks[n - 1].index == n - 1;
      hide ActiveUpTo, Links, LiveFor;
    }
  }

  /** The candidates a field has in a report, in the order of its checks, each once. */
  lemma ActiveAreLive(report: Report, field: Field)
    requires report.Valid()
    ensures var links := Links(Active(report, field));
      && (forall l :: l in links <==> Points(report, field, l))
      && (forall a, b :: 0 <= a < b < |links| ==> links[a].index < links[b].index)
  {
    var n := |report.checks|;
    LinksAscend(report, field, n);
    forall l
      ensures l in Links(Active(report, field)) <==> Points(report, field, l)
    {
      LinksUpTo(report, field, n, l);
    }
    ActiveIs(report, field);
    hide Links, ActiveUpTo, Active, Points;
  }

  /** A finding about two fields of one report: one at most, naming both fields and all their candidates. */
  ghost predicate AboutPair(report: Report, first: Field, second: Field, found: seq<Finding>) {
    && |found| <= 1
    && forall f :: f in found ==>
        f.fields == [first, second] && f.candidates == Links(Active(report, first)) + Links(Active(report, second))
  }

  lemma LinksConcat(a: seq<Row>, b: seq<Row>)
    ensures Links(a + b) == Links(a) + Links(b)
  {
  }

  lemma PairsNameTheirCandidates(report: Report, first: Field, second: Field)
    ensures AboutPair(report, first, second, DatePair(report, first, second))
    ensures forall f :: f in DatePair(report, first, second) ==> f.code in {DatePairIncomplete, DatePairNotEvaluable, DateOrderReversed}
    ensures AboutPair(report, first, second, Applicability(report, first, second))
    ensures forall f :: f in Applicability(report, first, second) ==> f.code == ApplicabilityDifference
  {
    LinksConcat(Active(report, first), Active(report, second));
    hide Links, Active, Unique, DateOf, NonzeroNumber;
  }

  lemma EnergyNamesItsCandidates(report: Report)
    ensures AboutPair(report, ElectricityGeneratedMwh, ElectricityExportedMwh, EnergyUnits(report))
    ensures forall f :: f in EnergyUnits(report) ==> f.code == EnergyUnitDifference
  {
    LinksConcat(Active(report, ElectricityGeneratedMwh), Active(report, ElectricityExportedMwh));
    hide Links, Active, Unique;
  }

  /** The candidates of all inputs, input by input. */
  lemma {:induction false} AllLinksInOrder(first: Input, rest: seq<Input>, field: Field)
    ensures Links(AllRows([], field)) == []
    ensures Links(AllRows([first] + rest, field)) == Links(Active(first.report, field)) + Links(AllRows(rest, field))
  {
    var all := [first] + rest;
    hide Active;
    if rest == [] {
      assert all == [first] && all[..0] == [];
      assert AllRows(all, field) == [] + Active(first.report, field) && AllRows(rest, field) == [];
      LinksConcat([], Active(first.report, field));
    } else {
      var front, last := rest[..|rest| - 1], rest[|rest| - 1];
      assert all[..|all| - 1] == [first] + front;
      AllLinksInOrder(first, front, field);
      LinksConcat(AllRows([first] + front, field), Active(last.report, field));
      LinksConcat(AllRows(front, field), Active(last.report, field));
      hide Links;
    }
  }

  lemma ProjectFindingsNameTheirCandidates(inputs: seq<Input>, field: Field)
    ensures |Methodology(inputs)| <= 1 && |Difference(inputs, field)| <= 1
    ensures forall f :: f in Methodology(inputs) ==>
      f.code == MethodologyUnconfirmed && f.fields == [MethodologyName] && f.candidates == Links(AllRows(inputs, MethodologyName))
    ensures forall f :: f in Difference(inputs, field) ==>
      f.fields == [field] && f.candidates == Links(AllRows(inputs, field))
  {
    hide Links, AllRows, Groups, AllAgree, DifferenceCode;
  }

  // ----- Which findings there are

  /** The findings of one report: two date pairs, two applicability flags, the energy units. */
  ghost predicate WithinReport(report: Report, f: Finding) {
    || f in DatePair(report, CreditingPeriodStart, CreditingPeriodEnd)
    || f in DatePair(report, VerificationPeriodStart, VerificationPeriodEnd)
    || f in Applicability(report, PeApplicableFlag, PeValueTco2e)
    || f in Applicability(report, LeApplicableFlag, LeValueTco2e)
    || f in EnergyUnits(report)
  }

  /** The fields that describe the project and are compared between its extractions. */
  predicate OfProject(field: Field) {
    field in {
      ProjectId, ProjectName, Country, InstalledCapacityMw, TechnologyType, MethodologyName, MethodologyVersion, RegisteredDate,
      ListedDate, ProjectOwner, ProjectDeveloper, ProjectOperator, ProjectParticipant, CreditingPeriodStart, CreditingPeriodEnd}
  }

  lemma OneReportFindings(report: Report, f: Finding)
    ensures f in WithinOne(report) <==> WithinReport(report, f)
  {
    hide DatePair, Applicability, EnergyUnits;
  }

  lemma {:induction false} EachReportFindings(inputs: seq<Input>, f: Finding)
    ensures f in WithinEach(inputs) <==> exists k: nat :: k < |inputs| && WithinReport(inputs[k].report, f)
  {
    hide WithinOne, WithinReport;
    if inputs != [] {
      var front, last := inputs[..|inputs| - 1], inputs[|inputs| - 1];
      EachReportFindings(front, f);
      OneReportFindings(last.report, f);
      assert forall k: nat :: k < |front| ==> front[k] == inputs[k];
    }
  }

  lemma {:induction false} FieldFindingsAre(inputs: seq<Input>, fields: seq<Field>, f: Finding)
    ensures f in Differences(inputs, fields) <==> exists field :: field in fields && f in Difference(inputs, field)
  {
    hide Difference;
    if fields != [] {
      var front, last := fields[..|fields| - 1], fields[|fields| - 1];
      FieldFindingsAre(inputs, front, f);
      assert forall x :: x in fields <==> x in front || x == last;
    }
  }

  lemma ProjectFieldsAre(field: Field)
    ensures field in PROJECT_FIELDS <==> OfProject(field)
  {
  }

  /** A project report holds exactly the findings of its reports, of its methodology and of its descriptive fields. */
  lemma FindingsAre(inputs: seq<Input>, f: Finding)
    ensures f in Findings(inputs) <==>
      || (exists k: nat :: k < |inputs| && WithinReport(inputs[k].report, f))
      || f in Methodology(inputs)
      || (exists field :: OfProject(field) && f in Difference(inputs, field))
  {
    EachReportFindings(inputs, f);
    FieldFindingsAre(inputs, PROJECT_FIELDS, f);
    forall field
      ensures field in PROJECT_FIELDS <==> OfProject(field)
    {
      ProjectFieldsAre(field);
    }
    hide WithinEach, Methodology, Difference, Differences, WithinReport, OfProject;
  }

  lemma {:induction false} VersionsAtMost(groups: seq<Input>)
    ensures |VersionsOf(groups)| <= |groups|
  {
    if groups != [] {
      var front, last := groups[..|groups| - 1], groups[|groups| - 1];
      VersionsAtMost(front);
      assert forall x :: x in groups <==> x in front || x == last;
      assert VersionsOf(groups) == VersionsOf(front) + {last.report.version};
    }
  }

  /** Two inputs of different document versions have candidates for the field. */
  ghost predicate InTwoVersions(inputs: seq<Input>, field: Field) {
    exists x, y :: TakesPart(inputs, field, x) && TakesPart(inputs, field, y) && x.report.version != y.report.version
  }

  lemma FieldComparesIff(inputs: seq<Input>, field: Field)
    ensures ComparesVersions(inputs, field) <==> InTwoVersions(inputs, field)
  {
    GroupVersions(inputs, field);
    VersionsAtMost(Groups(inputs, field));
    hide Groups, VersionsOf, TakesPart;
  }

  /** The report says that versions were compared iff some descriptive field has candidates from two of them. */
  lemma ComparedIff(inputs: seq<Input>)
    ensures Compared(inputs) <==> exists field :: OfProject(field) && InTwoVersions(inputs, field)
  {
    ComparesIff(inputs, PROJECT_FIELDS);
    forall field
      ensures field in PROJECT_FIELDS <==> OfProject(field)
      ensures ComparesVersions(inputs, field) <==> InTwoVersions(inputs, field)
    {
      ProjectFieldsAre(field);
      FieldComparesIff(inputs, field);
    }
    hide AnyCompares, ComparesVersions, InTwoVersions, OfProject;
  }

  // ----- When there is a report

  predicate RunsDiffer(inputs: seq<Input>) {
    forall i, j :: 0 <= i < j < |inputs| ==> inputs[i].report.run != inputs[j].report.run
  }

  ghost predicate SameProject(inputs: seq<Input>) {
    forall x, y :: x in inputs && y in inputs ==> x.report.project == y.report.project && x.report.registry == y.report.registry
  }

  /** What a report says of itself: its run, its project, and all its inputs in the order of their run identifiers. */
  ghost predicate Heads(name: Naming, inputs: seq<Input>, run: Id, r: ProjectReport) {
    && r.run == run && multiset(r.inputs) == multiset(inputs) && SortedBy(ByRun(name), r.inputs)
    && (forall x :: x in inputs ==> r.project == x.report.project && r.registry == x.report.registry)
    && r.findings == Findings(r.inputs) && r.compared == Compared(r.inputs)
  }

  lemma RunsDifferStep(inputs: seq<Input>)
    requires inputs != []
    ensures var front, last := inputs[..|inputs| - 1], inputs[|inputs| - 1];
      RunsDiffer(inputs) <==> RunsDiffer(front) && last.report.run !in RunsOf(front)
  {
    var front, last := inputs[..|inputs| - 1], inputs[|inputs| - 1];
    assert forall i :: 0 <= i < |front| ==> front[i] == inputs[i] && front[i] in front;
    if last.report.run in RunsOf(front) {
      var x :| x in front && x.report.run == last.report.run;
      var i :| 0 <= i < |front| && front[i] == x;
      assert inputs[i].report.run == inputs[|inputs| - 1].report.run;
    }
  }

  lemma {:induction false} RunsAreDistinctIff(inputs: seq<Input>)
    ensures |RunsOf(inputs)| == |inputs| <==> RunsDiffer(inputs)
    ensures |RunsOf(inputs)| <= |inputs|
  {
    if inputs == [] {
      assert RunsOf(inputs) == {};
    } else {
      hide RunsOf, RunsDiffer;
      RunsAreDistinctIff(inputs[..|inputs| - 1]);
      RunsWithLast(inputs);
      RunsDifferStep(inputs);
    }
  }

  lemma RunsWithLast(inputs: seq<Input>)
    requires inputs != []
    ensures RunsOf(inputs) == RunsOf(inputs[..|inputs| - 1]) + {inputs[|inputs| - 1].report.run}
  {
    var front, last := inputs[..|inputs| - 1], inputs[|inputs| - 1];
    assert forall x :: x in inputs <==> x in front || x == last;
  }

  lemma {:induction false} SortedRunsDistinct(a: seq<Input>, b: seq<Input>)
    requires multiset(a) == multiset(b)
    ensures |RunsOf(a)| == |RunsOf(b)| && |a| == |b| && OneProject(a) == OneProject(b)
  {
    SameElements(a, b);
    assert |multiset(a)| == |multiset(b)|;
    assert RunsOf(a) == RunsOf(b);
    OneProjectMeans(a);
    OneProjectMeans(b);
    hide OneProject, RunsOf;
  }

  lemma OneProjectMeans(inputs: seq<Input>)
    ensures OneProject(inputs) <==> SameProject(inputs)
  {
  }

  lemma HeadsOf(name: Naming, inputs: seq<Input>, run: Id)
    requires inputs != [] && OutcomeOf(Sort(ByRun(name), inputs), run).Ok?
    ensures Heads(name, inputs, run, OutcomeOf(Sort(ByRun(name), inputs), run).value)
  {
    var sorted := Sort(ByRun(name), inputs);
    NamesInOrder(name);
    SortSorts(ByRun(name), inputs);
    SameElements(sorted, inputs);
    OneProjectMeans(sorted);
    assert sorted[0] in sorted;
    hide RunsOf, ByRun, Sort, SortedBy, Findings, Compared, OneProject;
  }

  /** No inputs, one run twice, or two projects: in these cases there is no report, and only then. */
  lemma OutcomeMeans(name: Naming, inputs: seq<Input>, run: Id)
    ensures var r := Outcome(name, inputs, run);
      && (r == Err(NoInputs) <==> inputs == [])
      && (r == Err(DuplicateInputs) <==> inputs != [] && !RunsDiffer(inputs))
      && (r == Err(MixedProjects) <==> inputs != [] && RunsDiffer(inputs) && !SameProject(inputs))
      && (r.Ok? ==> Heads(name, inputs, run, r.value))
  {
    hide RunsOf, ByRun, Sort, RunsDiffer, Findings, Compared, SameProject, OneProject, Heads;
    if inputs != [] {
      RunsAreDistinctIff(inputs);
      SortedRunsDistinct(Sort(ByRun(name), inputs), inputs);
      OneProjectMeans(inputs);
      if OutcomeOf(Sort(ByRun(name), inputs), run).Ok? { HeadsOf(name, inputs, run); }
    }
  }

  lemma NamesInOrder(name: Naming)
    ensures TotalPreorder(ByRun(name))
  {
    forall a: Input, b: Input
      ensures ByRun(name)(a, b) || ByRun(name)(b, a)
    {
      StrLessTrichotomy(name(a.report.run), name(b.report.run));
    }
    forall a: Input, b: Input, c: Input | ByRun(name)(a, b) && ByRun(name)(b, c)
      ensures ByRun(name)(a, c)
    {
      StrLeqTransitive(name(a.report.run), name(b.report.run), name(c.report.run));
    }
  }
}
