/**
 Project-level consistency: disagreements between the candidates of several validated extractions of one
 project. Nothing is resolved here; every issue names the candidates it is about.
 */
module Consistency {
  import opened Wrappers
  import opened Fields
  import opened Text
  import opened Calendar
  import opened Domain
  import opened Sorting

  datatype Input = Input(report: Report, source: Id)

  datatype Link = Link(run: Id, index: nat)

  datatype Row = Row(observation: Observation, link: Link)

  datatype IssueCode =
    | DatePairIncomplete | DatePairNotEvaluable | DateOrderReversed | ApplicabilityDifference | EnergyUnitDifference
    | MethodologyUnconfirmed | CrossDocument | CrossVersion | ExtractorDifference

  datatype Finding = Finding(code: IssueCode, fields: seq<Field>, candidates: seq<Link>)

  datatype ProjectReport = ProjectReport(
    run: Id, project: string, registry: Registry, inputs: seq<Input>, findings: seq<Finding>, compared: bool)

  datatype InputError = NoInputs | DuplicateInputs | MixedProjects

  // ----- Candidates that count

  /** Rejected checks and abstentions are out of play. */
  predicate Live(check: Check) { !check.status.RejectedCheck? && check.observation.missing.None? }

  function ActiveUpTo(report: Report, field: Field, n: nat): seq<Row>
    requires n <= |report.checks|
  {
    if n == 0 then []
    else
      var check := report.checks[n - 1];
      ActiveUpTo(report, field, n - 1)
      + if Live(check) && check.observation.field == field then [Row(check.observation, Link(report.run, check.index))] else []
  }

  function Active(report: Report, field: Field): seq<Row> { ActiveUpTo(report, field, |report.checks|) }

  type Signature = (Json, Option<string>)

  function SignatureOf(o: Observation): Signature { (o.value, o.unit) }

  function Signatures(rows: seq<Row>): set<Signature> { set r | r in rows :: SignatureOf(r.observation) }

  /** The candidate, if all rows agree on value and unit. */
  function Unique(rows: seq<Row>): Option<Observation> {
    if |Signatures(rows)| == 1 && rows != [] then Some(rows[0].observation) else None
  }

  function Links(rows: seq<Row>): seq<Link> { seq(|rows|, i requires 0 <= i < |rows| => rows[i].link) }

  // ----- Findings within one extraction

  function DateOf(value: Json): Option<Date> { if value.JStr? then ParseDate(value.s) else None }

  function DatePair(report: Report, startField: Field, endField: Field): seq<Finding> {
    var starts, ends := Active(report, startField), Active(report, endField);
    var start, end := Unique(starts), Unique(ends);
    if starts == [] && ends == [] then []
    else if start.None? || end.None? then [Finding(DatePairIncomplete, [startField, endField], Links(starts + ends))]
    else
      var from, to := DateOf(start.value.value), DateOf(end.value.value);
      if from.None? || to.None? then [Finding(DatePairNotEvaluable, [startField, endField], Links(starts + ends))]
      else if DateLess(to.value, from.value) then [Finding(DateOrderReversed, [startField, endField], Links(starts + ends))]
      else []
  }

  predicate NonzeroNumber(value: Json) { (value.JInt? && value.n != 0) || (value.JFloat? && value.d.coef != 0) }

  function Applicability(report: Report, flagField: Field, valueField: Field): seq<Finding> {
    var flags, values := Active(report, flagField), Active(report, valueField);
    var flag, value := Unique(flags), Unique(values);
    if flag.Some? && value.Some? && flag.value.value == JBool(false) && NonzeroNumber(value.value.value) then
      [Finding(ApplicabilityDifference, [flagField, valueField], Links(flags + values))]
    else []
  }

  function EnergyUnits(report: Report): seq<Finding> {
    var generated, exported := Active(report, ElectricityGeneratedMwh), Active(report, ElectricityExportedMwh);
    var first, second := Unique(generated), Unique(exported);
    if first.Some? && second.Some? && first.value.unit != second.value.unit then
      [Finding(EnergyUnitDifference, [ElectricityGeneratedMwh, ElectricityExportedMwh], Links(generated + exported))]
    else []
  }

  function WithinOne(report: Report): seq<Finding> {
    DatePair(report, CreditingPeriodStart, CreditingPeriodEnd) + DatePair(report, VerificationPeriodStart, VerificationPeriodEnd)
    + Applicability(report, PeApplicableFlag, PeValueTco2e) + Applicability(report, LeApplicableFlag, LeValueTco2e)
    + EnergyUnits(report)
  }

  function WithinEach(inputs: seq<Input>): seq<Finding> {
    if inputs == [] then [] else WithinEach(inputs[..|inputs| - 1]) + WithinOne(inputs[|inputs| - 1].report)
  }

  // ----- Findings across extractions

  function AllRows(inputs: seq<Input>, field: Field): seq<Row> {
    if inputs == [] then [] else AllRows(inputs[..|inputs| - 1], field) + Active(inputs[|inputs| - 1].report, field)
  }

  function Methodology(inputs: seq<Input>): seq<Finding> {
    var rows := AllRows(inputs, MethodologyName);
    if rows == [] || exists r :: r in rows && r.observation.value != JStr("ACM0002") then
      [Finding(MethodologyUnconfirmed, [MethodologyName], Links(rows))]
    else []
  }

  /** The inputs with a candidate for `field`. */
  function Groups(inputs: seq<Input>, field: Field): seq<Input> {
    if inputs == [] then []
    else
      var last := inputs[|inputs| - 1];
      Groups(inputs[..|inputs| - 1], field) + if Active(last.report, field) != [] then [last] else []
  }

  function SourcesOf(groups: seq<Input>): set<Id> { set g | g in groups :: g.source }

  function VersionsOf(groups: seq<Input>): set<Id> { set g | g in groups :: g.report.version }

  function DifferenceCode(groups: seq<Input>): IssueCode {
    if |SourcesOf(groups)| > 1 then CrossDocument
    else if |VersionsOf(groups)| > 1 then CrossVersion
    else ExtractorDifference
  }

  predicate AllAgree(groups: seq<Input>, field: Field) {
    groups == [] || forall g :: g in groups ==> Signatures(Active(g.report, field)) == Signatures(Active(groups[0].report, field))
  }

  function Difference(inputs: seq<Input>, field: Field): seq<Finding> {
    var groups := Groups(inputs, field);
    if |groups| < 2 || AllAgree(groups, field) then []
    else [Finding(DifferenceCode(groups), [field], Links(AllRows(inputs, field)))]
  }

  const PROJECT_FIELDS: seq<Field> := [
    ProjectId, ProjectName, Country, InstalledCapacityMw, TechnologyType, MethodologyName, MethodologyVersion,
    RegisteredDate, ListedDate, ProjectOwner, ProjectDeveloper, ProjectOperator, ProjectParticipant,
    CreditingPeriodStart, CreditingPeriodEnd]

  function Differences(inputs: seq<Input>, fields: seq<Field>): seq<Finding> {
    if fields == [] then []
    else Differences(inputs, fields[..|fields| - 1]) + Difference(inputs, fields[|fields| - 1])
  }

  predicate ComparesVersions(inputs: seq<Input>, field: Field) {
    |Groups(inputs, field)| >= 2 && |VersionsOf(Groups(inputs, field))| > 1
  }

  function Findings(inputs: seq<Input>): seq<Finding> {
    WithinEach(inputs) + Methodology(inputs) + Differences(inputs, PROJECT_FIELDS)
  }

  predicate AnyCompares(inputs: seq<Input>, fields: seq<Field>) {
    fields != [] && (AnyCompares(inputs, fields[..|fields| - 1]) || ComparesVersions(inputs, fields[|fields| - 1]))
  }

  predicate Compared(inputs: seq<Input>) { AnyCompares(inputs, PROJECT_FIELDS) }

  // ----- The whole validation

  /** Text of a run identifier; different identifiers have different texts. */
  type Naming = Id -> string

  ghost predicate Injective(name: Naming) { forall a, b :: name(a) == name(b) ==> a == b }

  function ByRun(name: Naming): (Input, Input) -> bool { (a: Input, b: Input) => StrLeq(name(a.report.run), name(b.report.run)) }

  function RunsOf(inputs: seq<Input>): set<Id> { set x | x in inputs :: x.report.run }

  predicate OneProject(inputs: seq<Input>) {
    inputs == [] || forall x :: x in inputs ==>
      x.report.project == inputs[0].report.project && x.report.registry == inputs[0].report.registry
  }

  function OutcomeOf(sorted: seq<Input>, run: Id): Result<ProjectReport, InputError>
    requires sorted != []
  {
    if |RunsOf(sorted)| != |sorted| then Err(DuplicateInputs)
    else if !OneProject(sorted) then Err(MixedProjects)
    else Ok(ProjectReport(run, sorted[0].report.project, sorted[0].report.registry, sorted, Findings(sorted), Compared(sorted)))
  }

  function Outcome(name: Naming, inputs: seq<Input>, run: Id): Result<ProjectReport, InputError> {
    if inputs == [] then Err(NoInputs) else OutcomeOf(Sort(ByRun(name), inputs), run)
  }

  method ItemFindings(inputs: seq<Input>) returns (findings: seq<Finding>)
    ensures findings == WithinEach(inputs)
  {
    findings := [];
    for k := 0 to |inputs|
      invariant findings == WithinEach(inputs[..k])
    {
      hide WithinOne;
      assert inputs[..k + 1][..k] == inputs[..k];
      findings := findings + WithinOne(inputs[k].report);
    }
    assert inputs[..|inputs|] == inputs;
  }

  method FieldFindings(inputs: seq<Input>, fields: seq<Field>) returns (findings: seq<Finding>, compared: bool)
    ensures findings == Differences(inputs, fields)
    ensures compared == AnyCompares(inputs, fields)
  {
    findings, compared := [], false;
    for k := 0 to |fields|
      invariant findings == Differences(inputs, fields[..k])
      invariant compared == AnyCompares(inputs, fields[..k])
    {
      hide Difference, ComparesVersions;
      assert fields[..k + 1][..k] == fields[..k];
      compared := compared || ComparesVersions(inputs, fields[k]);
      findings := findings + Difference(inputs, fields[k]);
    }
    assert fields[..|fields|] == fields;
  }

  method ValidateProject(name: Naming, inputs: seq<Input>, run: Id) returns (r: Result<ProjectReport, InputError>)
    ensures r == Outcome(name, inputs, run)
  {
    if inputs == [] {
      return Err(NoInputs);
    }
    var sorted := Sort(ByRun(name), inputs);
    if |RunsOf(sorted)| != |sorted| {
      return Err(DuplicateInputs);
    }
    if !OneProject(sorted) {
      return Err(MixedProjects);
    }
    var findings := ItemFindings(sorted);
    findings := findings + Methodology(sorted);
    var more, compared := FieldFindings(sorted, PROJECT_FIELDS);
    findings := findings + more;
    r := Ok(ProjectReport(run, sorted[0].report.project, sorted[0].report.registry, sorted, findings, compared));
  }

  // ----- Every report it builds is accepted by the report model

  /** The link names a check of an input, and that check is about one of the finding's fields. */
  ghost predicate LinkOk(inputs: seq<Input>, fields: seq<Field>, link: Link) {
    exists k :: 0 <= k < |inputs| && LinkInto(inputs[k].report, fields, link)
  }

  predicate LinkInto(report: Report, fields: seq<Field>, link: Link) {
    && report.run == link.run && link.index < |report.checks|
    && report.checks[link.index].observation.field in fields
  }

  ghost predicate FindingOk(inputs: seq<Input>, f: Finding) {
    f.fields != [] && forall i :: 0 <= i < |f.candidates| ==> LinkOk(inputs, f.fields, f.candidates[i])
  }

  ghost predicate FindingsOk(inputs: seq<Input>, findings: seq<Finding>) {
    forall i :: 0 <= i < |findings| ==> FindingOk(inputs, findings[i])
  }

  ghost predicate ReportAccepted(r: ProjectReport) {
    && r.inputs != [] && r.project != "" && |RunsOf(r.inputs)| == |r.inputs|
    && (forall x :: x in r.inputs ==> x.report.project == r.project && x.report.registry == r.registry)
    && FindingsOk(r.inputs, r.findings)
  }

  lemma {:induction false} ActiveLinks(report: Report, field: Field, n: nat, k: nat)
    requires report.Valid() && n <= |report.checks| && k < |ActiveUpTo(report, field, n)|
    ensures var link := ActiveUpTo(report, field, n)[k].link;
      link.run == report.run && link.index < n && report.checks[link.index].observation.field == field
  {
    if k < |ActiveUpTo(report, field, n - 1)| {
      ActiveLinks(report, field, n - 1, k);
    } else {
      assert report.checks[n - 1].index == n - 1;
    }
  }

  lemma TwoFieldsOk(report: Report, a: Field, b: Field, inputs: seq<Input>, k: nat, code: IssueCode)
    requires report.Valid() && k < |inputs| && inputs[k].report == report
    ensures FindingOk(inputs, Finding(code, [a, b], Links(Active(report, a) + Active(report, b))))
  {
    var rows := Active(report, a) + Active(report, b);
    hide Active;
    forall i | 0 <= i < |rows|
      ensures LinkOk(inputs, [a, b], Links(rows)[i])
    {
      var own := if i < |Active(report, a)| then a else b;
      ActiveIs(report, a);
      ActiveIs(report, b);
      ActiveLinks(report, own, |report.checks|, if i < |Active(report, a)| then i else i - |Active(report, a)|);
      assert own in [a, b];
      assert LinkInto(inputs[k].report, [a, b], Links(rows)[i]);
    }
  }

  lemma ActiveIs(report: Report, field: Field)
    ensures Active(report, field) == ActiveUpTo(report, field, |report.checks|)
  {
  }

  lemma WithinOneOk(inputs: seq<Input>, k: nat)
    requires k < |inputs| && inputs[k].report.Valid()
    ensures FindingsOk(inputs, WithinOne(inputs[k].report))
  {
    var r := inputs[k].report;
    DatePairOk(inputs, k, CreditingPeriodStart, CreditingPeriodEnd);
    DatePairOk(inputs, k, VerificationPeriodStart, VerificationPeriodEnd);
    ApplicabilityOk(inputs, k, PeApplicableFlag, PeValueTco2e);
    ApplicabilityOk(inputs, k, LeApplicableFlag, LeValueTco2e);
    EnergyOk(inputs, k);
    hide FindingsOk, DatePair, Applicability, EnergyUnits;
    var dates := DatePair(r, CreditingPeriodStart, CreditingPeriodEnd) + DatePair(r, VerificationPeriodStart, VerificationPeriodEnd);
    var pe, le := Applicability(r, PeApplicableFlag, PeValueTco2e), Applicability(r, LeApplicableFlag, LeValueTco2e);
    AppendOk(inputs, DatePair(r, CreditingPeriodStart, CreditingPeriodEnd), DatePair(r, VerificationPeriodStart, VerificationPeriodEnd));
    AppendOk(inputs, dates, pe);
    AppendOk(inputs, dates + pe, le);
    AppendOk(inputs, dates + pe + le, EnergyUnits(r));
  }

  lemma ApplicabilityOk(inputs: seq<Input>, k: nat, flag: Field, value: Field)
    requires k < |inputs| && inputs[k].report.Valid()
    ensures FindingsOk(inputs, Applicability(inputs[k].report, flag, value))
  {
    TwoFieldsOk(inputs[k].report, flag, value, inputs, k, ApplicabilityDifference);
    hide FindingOk, Active, Unique, Links, NonzeroNumber;
  }

  lemma EnergyOk(inputs: seq<Input>, k: nat)
    requires k < |inputs| && inputs[k].report.Valid()
    ensures FindingsOk(inputs, EnergyUnits(inputs[k].report))
  {
    TwoFieldsOk(inputs[k].report, ElectricityGeneratedMwh, ElectricityExportedMwh, inputs, k, EnergyUnitDifference);
    hide FindingOk, Active, Unique, Links;
  }

  lemma DatePairOk(inputs: seq<Input>, k: nat, start: Field, end: Field)
    requires k < |inputs| && inputs[k].report.Valid()
    ensures FindingsOk(inputs, DatePair(inputs[k].report, start, end))
  {
    forall code
      ensures FindingOk(inputs, Finding(code, [start, end], Links(Active(inputs[k].report, start) + Active(inputs[k].report, end))))
    {
      TwoFieldsOk(inputs[k].report, start, end, inputs, k, code);
    }
    hide FindingOk, Active, Unique, Links, DateOf, DateLess;
  }

  lemma AppendOk(inputs: seq<Input>, a: seq<Finding>, b: seq<Finding>)
    requires FindingsOk(inputs, a) && FindingsOk(inputs, b)
    ensures FindingsOk(inputs, a + b)
  {
    hide FindingOk;
  }

  lemma NoFindingsOk(inputs: seq<Input>)
    ensures FindingsOk(inputs, [])
  {
  }

  lemma {:induction false} WithinEachOk(inputs: seq<Input>, n: nat)
    requires n <= |inputs| && forall k :: 0 <= k < |inputs| ==> inputs[k].report.Valid()
    ensures FindingsOk(inputs, WithinEach(inputs[..n]))
  {
    hide FindingsOk, WithinOne, Report.Valid;
    if n == 0 {
      NoFindingsOk(inputs);
    } else {
      WithinEachOk(inputs, n - 1);
      WithinOneOk(inputs, n - 1);
      assert inputs[..n][..n - 1] == inputs[..n - 1] && inputs[..n][n - 1] == inputs[n - 1];
      AppendOk(inputs, WithinEach(inputs[..n - 1]), WithinOne(inputs[n - 1].report));
    }
  }

  lemma {:induction false} AllRowsOk(inputs: seq<Input>, field: Field, n: nat)
    requires n <= |inputs| && forall k :: 0 <= k < |inputs| ==> inputs[k].report.Valid()
    ensures forall i :: 0 <= i < |AllRows(inputs[..n], field)| ==> LinkOk(inputs, [field], AllRows(inputs[..n], field)[i].link)
  {
    if n > 0 {
      AllRowsOk(inputs, field, n - 1);
      assert inputs[..n][..n - 1] == inputs[..n - 1];
      var report, before := inputs[n - 1].report, AllRows(inputs[..n - 1], field);
      var rows := AllRows(inputs[..n], field);
      assert rows == before + Active(report, field);
      hide AllRows, LinkOk, Active;
      forall i | 0 <= i < |rows|
        ensures LinkOk(inputs, [field], rows[i].link)
      {
        if |before| <= i {
          ActiveIs(report, field);
          ActiveLinks(report, field, |report.checks|, i - |before|);
          OwnLink(inputs, n - 1, field, rows[i].link);
        }
      }
    }
  }

  lemma OwnLink(inputs: seq<Input>, k: nat, field: Field, link: Link)
    requires k < |inputs| && LinkInto(inputs[k].report, [field], link)
    ensures LinkOk(inputs, [field], link)
  {
  }

  lemma {:induction false} DifferencesOk(inputs: seq<Input>, fields: seq<Field>)
    requires forall k :: 0 <= k < |inputs| ==> inputs[k].report.Valid()
    ensures FindingsOk(inputs, Differences(inputs, fields))
  {
    if fields != [] {
      var last := |fields| - 1;
      DifferencesOk(inputs, fields[..last]);
      DifferenceOk(inputs, fields[last]);
      hide FindingsOk, Difference;
      AppendOk(inputs, Differences(inputs, fields[..last]), Difference(inputs, fields[last]));
    }
  }

  lemma DifferenceOk(inputs: seq<Input>, field: Field)
    requires forall k :: 0 <= k < |inputs| ==> inputs[k].report.Valid()
    ensures FindingsOk(inputs, Difference(inputs, field))
  {
    AllRowsOk(inputs, field, |inputs|);
    assert inputs[..|inputs|] == inputs;
    hide LinkOk, AllRows, Groups, AllAgree;
  }

  /** On valid inputs the report that is built always passes the report model's own checks. */
  lemma ReportAlwaysAccepted(name: Naming, inputs: seq<Input>, run: Id)
    requires forall x :: x in inputs ==> x.report.Valid()
    requires Outcome(name, inputs, run).Ok?
    ensures ReportAccepted(Outcome(name, inputs, run).value)
  {
    var sorted := Sort(ByRun(name), inputs);
    SameRuns(sorted, inputs);
    assert forall x :: x in sorted ==> x.report.Valid();
    hide Sort, OutcomeOf;
    OutcomeAccepted(sorted, run);
  }

  lemma OutcomeAccepted(sorted: seq<Input>, run: Id)
    requires sorted != [] && OutcomeOf(sorted, run).Ok? && forall x :: x in sorted ==> x.report.Valid()
    ensures ReportAccepted(OutcomeOf(sorted, run).value)
  {
    FindingsAccepted(sorted);
    assert sorted[0] in sorted;
    hide Findings, FindingsOk, Compared, RunsOf;
  }

  lemma MethodologyOk(inputs: seq<Input>)
    requires forall k :: 0 <= k < |inputs| ==> inputs[k].report.Valid()
    ensures FindingsOk(inputs, Methodology(inputs))
  {
    AllRowsOk(inputs, MethodologyName, |inputs|);
    assert inputs[..|inputs|] == inputs;
    hide LinkOk, AllRows;
  }

  lemma FindingsAccepted(inputs: seq<Input>)
    requires forall x :: x in inputs ==> x.report.Valid()
    ensures FindingsOk(inputs, Findings(inputs))
  {
    assert forall k :: 0 <= k < |inputs| ==> inputs[k] in inputs;
    assert inputs[..|inputs|] == inputs;
    WithinEachOk(inputs, |inputs|);
    MethodologyOk(inputs);
    DifferencesOk(inputs, PROJECT_FIELDS);
    hide FindingsOk, WithinEach, Differences, Methodology;
    AppendOk(inputs, WithinEach(inputs), Methodology(inputs));
    AppendOk(inputs, WithinEach(inputs) + Methodology(inputs), Differences(inputs, PROJECT_FIELDS));
  }

  lemma SameRuns(a: seq<Input>, b: seq<Input>)
    requires multiset(a) == multiset(b)
    ensures RunsOf(a) == RunsOf(b) && |a| == |b|
    ensures forall x :: x in a <==> x in b
  {
    SameSize(a, b);
    assert forall x :: x in a <==> x in multiset(a);
    assert forall x :: x in b <==> x in multiset(b);
  }

  lemma {:induction false} ComparesIff(inputs: seq<Input>, fields: seq<Field>)
    ensures AnyCompares(inputs, fields) <==> exists f :: f in fields && ComparesVersions(inputs, f)
  {
    if fields != [] {
      var front, last := fields[..|fields| - 1], fields[|fields| - 1];
      ComparesIff(inputs, front);
      hide ComparesVersions;
      assert forall f :: f in fields <==> f in front || f == last;
    }
  }

  // ----- The order of the inputs does not matter

  lemma ByRunIsTotal(name: Naming)
    ensures TotalPreorder(ByRun(name))
  {
    hide StrLess;
    forall a: Input, b: Input
      ensures StrLeq(name(a.report.run), name(b.report.run)) || StrLeq(name(b.report.run), name(a.report.run))
    {
      StrLessTrichotomy(name(a.report.run), name(b.report.run));
    }
    forall a: Input, b: Input, c: Input
      | StrLeq(name(a.report.run), name(b.report.run)) && StrLeq(name(b.report.run), name(c.report.run))
      ensures StrLeq(name(a.report.run), name(c.report.run))
    {
      StrLeqTransitive(name(a.report.run), name(b.report.run), name(c.report.run));
    }
  }

  /** As many runs as inputs means no run twice. */
  lemma {:induction false} NoRunTwice(inputs: seq<Input>, i: nat, j: nat)
    requires |RunsOf(inputs)| == |inputs| && i < j < |inputs|
    ensures inputs[i].report.run != inputs[j].report.run
  {
    var last := |inputs| - 1;
    var front := inputs[..last];
    RunsAtMost(front);
    assert inputs == front + [inputs[last]];
    assert RunsOf(inputs) == RunsOf(front) + {inputs[last].report.run};
    if j < last {
      NoRunTwice(front, i, j);
    } else {
      assert front[i] in front;
    }
  }

  lemma {:induction false} RunsAtMost(inputs: seq<Input>)
    ensures |RunsOf(inputs)| <= |inputs|
  {
    if inputs != [] {
      var last := |inputs| - 1;
      RunsAtMost(inputs[..last]);
      assert inputs == inputs[..last] + [inputs[last]];
      assert RunsOf(inputs) == RunsOf(inputs[..last]) + {inputs[last].report.run};
    }
  }

  /** Any arrangement of the same inputs gives the same report, or the same refusal. */
  lemma OrderOfInputsIrrelevant(name: Naming, a: seq<Input>, b: seq<Input>, run: Id)
    requires Injective(name) && multiset(a) == multiset(b)
    ensures Outcome(name, a, run) == Outcome(name, b, run)
  {
    var x, y := Sort(ByRun(name), a), Sort(ByRun(name), b);
    SameSize(a, b);
    SameRuns(x, y);
    hide RunsOf, Findings, Compared, OneProject;
    if |RunsOf(x)| == |x| {
      ByRunIsTotal(name);
      SortSorts(ByRun(name), a);
      SortSorts(ByRun(name), b);
      hide Sort;
      forall p, q | p in x && q in x && ByRun(name)(p, q) && ByRun(name)(q, p)
        ensures p == q
      {
        TieIsSame(name, x, p, q);
      }
      SortedUnique(ByRun(name), x, y);
    }
  }

  lemma TieIsSame(name: Naming, a: seq<Input>, p: Input, q: Input)
    requires Injective(name) && |RunsOf(a)| == |a|
    requires p in a && q in a && ByRun(name)(p, q) && ByRun(name)(q, p)
    ensures p == q
  {
    StrLessTrichotomy(name(p.report.run), name(q.report.run));
    var i :| 0 <= i < |a| && a[i] == p;
    var j :| 0 <= j < |a| && a[j] == q;
    if i < j { NoRunTwice(a, i, j); } else if j < i { NoRunTwice(a, j, i); }
  }

  // ----- Rejected and abstaining checks do not interfere

  /** The same run, source and version, and the same live checks; the rest may differ in anything but being out of play. */
  ghost predicate SameLive(a: Input, b: Input) {
    && a.source == b.source && a.report.run == b.report.run && a.report.version == b.report.version
    && a.report.project == b.report.project && a.report.registry == b.report.registry
    && |a.report.checks| == |b.report.checks|
    && forall i :: 0 <= i < |a.report.checks| ==>
        a.report.checks[i] == b.report.checks[i] || (!Live(a.report.checks[i]) && !Live(b.report.checks[i]))
  }

  ghost predicate AllSameLive(a: seq<Input>, b: seq<Input>) {
    |a| == |b| && forall i :: 0 <= i < |a| ==> SameLive(a[i], b[i])
  }

  lemma {:induction false} SameActive(a: Report, b: Report, field: Field, n: nat)
    requires a.run == b.run && n <= |a.checks| == |b.checks|
    requires forall i :: 0 <= i < |a.checks| ==> a.checks[i] == b.checks[i] || (!Live(a.checks[i]) && !Live(b.checks[i]))
    ensures ActiveUpTo(a, field, n) == ActiveUpTo(b, field, n)
  {
    if n > 0 { SameActive(a, b, field, n - 1); }
  }

  lemma SameLiveActive(a: Input, b: Input, field: Field)
    requires SameLive(a, b)
    ensures Active(a.report, field) == Active(b.report, field)
  {
    SameActive(a.report, b.report, field, |a.report.checks|);
  }

  lemma SamePair(a: Report, b: Report, first: Field, second: Field)
    requires Active(a, first) == Active(b, first) && Active(a, second) == Active(b, second)
    ensures DatePair(a, first, second) == DatePair(b, first, second)
    ensures Applicability(a, first, second) == Applicability(b, first, second)
  {
    hide Active, Unique, Links, DateOf, DateLess, NonzeroNumber;
  }

  lemma SameEnergy(a: Report, b: Report)
    requires Active(a, ElectricityGeneratedMwh) == Active(b, ElectricityGeneratedMwh)
    requires Active(a, ElectricityExportedMwh) == Active(b, ElectricityExportedMwh)
    ensures EnergyUnits(a) == EnergyUnits(b)
  {
    hide Active, Unique, Links;
  }

  lemma SameWithinOne(a: Input, b: Input)
    requires SameLive(a, b)
    ensures WithinOne(a.report) == WithinOne(b.report)
  {
    forall field
      ensures Active(a.report, field) == Active(b.report, field)
    {
      SameLiveActive(a, b, field);
    }
    hide SameLive, Active, DatePair, Applicability, EnergyUnits;
    SamePair(a.report, b.report, CreditingPeriodStart, CreditingPeriodEnd);
    SamePair(a.report, b.report, VerificationPeriodStart, VerificationPeriodEnd);
    SamePair(a.report, b.report, PeApplicableFlag, PeValueTco2e);
    SamePair(a.report, b.report, LeApplicableFlag, LeValueTco2e);
    SameEnergy(a.report, b.report);
  }

  lemma {:induction false} SameWithinEach(a: seq<Input>, b: seq<Input>)
    requires AllSameLive(a, b)
    ensures WithinEach(a) == WithinEach(b)
  {
    if a != [] {
      var last := |a| - 1;
      hide SameLive, WithinOne;
      SameWithinEach(a[..last], b[..last]);
      SameWithinOne(a[last], b[last]);
    }
  }

  lemma {:induction false} SameRows(a: seq<Input>, b: seq<Input>, field: Field)
    requires AllSameLive(a, b)
    ensures AllRows(a, field) == AllRows(b, field)
  {
    if a != [] {
      var last := |a| - 1;
      hide SameLive, Active;
      SameRows(a[..last], b[..last], field);
      SameLiveActive(a[last], b[last], field);
    }
  }

  lemma ExtendSame(a: seq<Input>, b: seq<Input>, x: Input, y: Input)
    requires AllSameLive(a, b) && SameLive(x, y)
    ensures AllSameLive(a + [x], b + [y])
  {
    hide SameLive;
  }

  lemma {:induction false} SameInGroups(a: seq<Input>, b: seq<Input>, field: Field)
    requires AllSameLive(a, b)
    ensures AllSameLive(Groups(a, field), Groups(b, field))
  {
    if a != [] {
      var last := |a| - 1;
      assert AllSameLive(a[..last], b[..last]) && SameLive(a[last], b[last]);
      hide AllSameLive, SameLive, Active;
      SameInGroups(a[..last], b[..last], field);
      SameLiveActive(a[last], b[last], field);
      if Active(a[last].report, field) != [] {
        ExtendSame(Groups(a[..last], field), Groups(b[..last], field), a[last], b[last]);
      } else {
        assert Groups(a, field) == Groups(a[..last], field) && Groups(b, field) == Groups(b[..last], field);
      }
    }
  }

  lemma SameGroups(a: seq<Input>, b: seq<Input>, field: Field)
    requires AllSameLive(a, b)
    ensures SourcesOf(a) == SourcesOf(b) && VersionsOf(a) == VersionsOf(b) && (AllAgree(a, field) <==> AllAgree(b, field))
  {
    forall i | 0 <= i < |a|
      ensures a[i] in a && b[i] in b && a[i].source == b[i].source && a[i].report.version == b[i].report.version
      ensures Active(a[i].report, field) == Active(b[i].report, field)
    {
      SameLiveActive(a[i], b[i], field);
    }
    hide SameLive, Active, Signatures;
  }

  lemma SameDifference(a: seq<Input>, b: seq<Input>, field: Field)
    requires AllSameLive(a, b)
    ensures Difference(a, field) == Difference(b, field) && ComparesVersions(a, field) == ComparesVersions(b, field)
  {
    SameRows(a, b, field);
    SameInGroups(a, b, field);
    SameGroups(Groups(a, field), Groups(b, field), field);
    hide AllAgree, SourcesOf, VersionsOf, Groups, AllRows, Links, SameLive;
  }

  lemma {:induction false} SameDifferences(a: seq<Input>, b: seq<Input>, fields: seq<Field>)
    requires AllSameLive(a, b)
    ensures Differences(a, fields) == Differences(b, fields) && AnyCompares(a, fields) == AnyCompares(b, fields)
  {
    if fields != [] {
      hide AllSameLive, Difference, ComparesVersions;
      SameDifferences(a, b, fields[..|fields| - 1]);
      SameDifference(a, b, fields[|fields| - 1]);
    }
  }

  /** Sorting by run treats inputs of the same runs alike. */
  lemma {:induction false} SameInsert(name: Naming, a: seq<Input>, b: seq<Input>, x: Input, y: Input)
    requires AllSameLive(a, b) && SameLive(x, y)
    ensures AllSameLive(Insert(ByRun(name), a, x), Insert(ByRun(name), b, y))
  {
    if a != [] {
      var last := |a| - 1;
      assert AllSameLive(a[..last], b[..last]) && SameLive(a[last], b[last]);
      assert ByRun(name)(a[last], x) == ByRun(name)(b[last], y);
      hide AllSameLive, SameLive, ByRun;
      if ByRun(name)(a[last], x) {
        ExtendSame(a, b, x, y);
      } else {
        SameInsert(name, a[..last], b[..last], x, y);
        ExtendSame(Insert(ByRun(name), a[..last], x), Insert(ByRun(name), b[..last], y), a[last], b[last]);
      }
    } else {
      ExtendSame([], [], x, y);
      assert [] + [x] == [x] && [] + [y] == [y];
    }
  }

  lemma {:induction false} SameSort(name: Naming, a: seq<Input>, b: seq<Input>)
    requires AllSameLive(a, b)
    ensures AllSameLive(Sort(ByRun(name), a), Sort(ByRun(name), b))
  {
    if a != [] {
      var last := |a| - 1;
      assert AllSameLive(a[..last], b[..last]) && SameLive(a[last], b[last]);
      hide AllSameLive, SameLive, ByRun;
      SameSort(name, a[..last], b[..last]);
      SameInsert(name, Sort(ByRun(name), a[..last]), Sort(ByRun(name), b[..last]), a[last], b[last]);
    }
  }

  /**
   Whatever rejected and abstaining checks contain, the findings and the comparison flag are the same, and so
   is a refusal.
   */
  lemma DeadChecksDoNotInterfere(name: Naming, a: seq<Input>, b: seq<Input>, run: Id)
    requires AllSameLive(a, b)
    ensures var x, y := Outcome(name, a, run), Outcome(name, b, run);
      && x.Ok? == y.Ok?
      && (x.Ok? ==> x.value.findings == y.value.findings && x.value.compared == y.value.compared)
      && (x.Err? && y.Err? ==> x.error == y.error)
  {
    SameSort(name, a, b);
    assert |a| == |b|;
    hide Sort, AllSameLive, OutcomeOf;
    if a != [] {
      SameOutcome(Sort(ByRun(name), a), Sort(ByRun(name), b), run);
    }
  }

  lemma SameOutcome(a: seq<Input>, b: seq<Input>, run: Id)
    requires AllSameLive(a, b) && a != [] && b != []
    ensures var x, y := OutcomeOf(a, run), OutcomeOf(b, run);
      && x.Ok? == y.Ok?
      && (x.Ok? ==> x.value.findings == y.value.findings && x.value.compared == y.value.compared)
      && (x.Err? && y.Err? ==> x.error == y.error)
  {
    SameScope(a, b);
    SameFindings(a, b);
    hide RunsOf, OneProject, Findings, Compared, AllSameLive;
  }

  lemma SameScope(a: seq<Input>, b: seq<Input>)
    requires AllSameLive(a, b)
    ensures RunsOf(a) == RunsOf(b) && OneProject(a) == OneProject(b) && |a| == |b|
  {
    assert forall i :: 0 <= i < |a| ==> a[i] in a && b[i] in b && SameLive(a[i], b[i]);
    forall i | 0 <= i < |a|
      ensures a[i].report.run == b[i].report.run && a[i].report.project == b[i].report.project
              && a[i].report.registry == b[i].report.registry
    {
      assert SameLive(a[i], b[i]);
    }
    hide SameLive;
  }

  lemma SameFindings(a: seq<Input>, b: seq<Input>)
    requires AllSameLive(a, b)
    ensures Findings(a) == Findings(b) && Compared(a) == Compared(b)
  {
    SameWithinEach(a, b);
    SameRows(a, b, MethodologyName);
    SameDifferences(a, b, PROJECT_FIELDS);
    assert Methodology(a) == Methodology(b) by { hide AllRows, AllSameLive, Links; }
    hide WithinEach, Methodology, Differences, AllSameLive;
  }

  // ----- When a disagreement is reported

  lemma {:induction false} InGroups(inputs: seq<Input>, field: Field, x: Input)
    ensures x in Groups(inputs, field) <==> x in inputs && Active(x.report, field) != []
  {
    if inputs != [] {
      var front, last := inputs[..|inputs| - 1], inputs[|inputs| - 1];
      hide Active;
      InGroups(front, field, x);
      assert x in inputs <==> x in front || x == last;
    }
  }

  /** Two inputs hold candidates for the field that do not match. */
  ghost predicate Disagree(field: Field, x: Input, y: Input) {
    && Active(x.report, field) != [] && Active(y.report, field) != []
    && Signatures(Active(x.report, field)) != Signatures(Active(y.report, field))
  }

  /** A difference is reported exactly when some two inputs disagree. */
  lemma DifferenceIff(inputs: seq<Input>, field: Field)
    ensures Difference(inputs, field) != [] <==> exists x, y :: x in inputs && y in inputs && Disagree(field, x, y)
  {
    if Difference(inputs, field) != [] {
      ReportedDisagreement(inputs, field);
    }
    forall x, y | x in inputs && y in inputs && Disagree(field, x, y)
      ensures Difference(inputs, field) != []
    {
      DisagreementReported(inputs, field, x, y);
    }
    hide Difference, Disagree;
  }

  lemma MoreThanOne<T>(s: set<T>)
    ensures |s| > 1 <==> exists a, b :: a in s && b in s && a != b
  {
    if |s| > 1 {
      var a :| a in s;
      assert |s - {a}| == |s| - 1;
      var b :| b in s - {a};
    }
    if a, b :| a in s && b in s && a != b {
      assert s == (s - {a, b}) + {a, b};
      assert |{a, b}| == 2;
    }
  }

  /** An input that takes part in comparing `field`. */
  predicate TakesPart(inputs: seq<Input>, field: Field, x: Input) { x in inputs && Active(x.report, field) != [] }

  lemma GroupsTakePart(inputs: seq<Input>, field: Field)
    ensures forall x :: x in Groups(inputs, field) <==> TakesPart(inputs, field, x)
  {
    hide Groups, Active;
    forall x
      ensures x in Groups(inputs, field) <==> TakesPart(inputs, field, x)
    {
      InGroups(inputs, field, x);
    }
  }

  lemma GroupSources(inputs: seq<Input>, field: Field)
    ensures |SourcesOf(Groups(inputs, field))| > 1 <==>
      exists x, y :: TakesPart(inputs, field, x) && TakesPart(inputs, field, y) && x.source != y.source
  {
    hide Groups, TakesPart;
    GroupsTakePart(inputs, field);
    MoreThanOne(SourcesOf(Groups(inputs, field)));
    assert forall x :: x in Groups(inputs, field) ==> x.source in SourcesOf(Groups(inputs, field));
  }

  lemma GroupVersions(inputs: seq<Input>, field: Field)
    ensures |VersionsOf(Groups(inputs, field))| > 1 <==>
      exists x, y :: TakesPart(inputs, field, x) && TakesPart(inputs, field, y) && x.report.version != y.report.version
  {
    hide Groups, TakesPart;
    GroupsTakePart(inputs, field);
    MoreThanOne(VersionsOf(Groups(inputs, field)));
    assert forall x :: x in Groups(inputs, field) ==> x.report.version in VersionsOf(Groups(inputs, field));
  }

  /**
   Which difference is reported: across documents if inputs of two sources take part, else across versions if
   inputs of two versions do, else between extractors.
   */
  lemma DifferenceCodeIff(inputs: seq<Input>, field: Field)
    requires Difference(inputs, field) != []
    ensures |Difference(inputs, field)| == 1 && Difference(inputs, field)[0].fields == [field]
    ensures var code := Difference(inputs, field)[0].code;
      var sources := exists x, y :: TakesPart(inputs, field, x) && TakesPart(inputs, field, y) && x.source != y.source;
      var versions := exists x, y ::
        TakesPart(inputs, field, x) && TakesPart(inputs, field, y) && x.report.version != y.report.version;
      && (code.CrossDocument? <==> sources)
      && (code.CrossVersion? <==> !sources && versions)
      && (code.ExtractorDifference? <==> !sources && !versions)
  {
    GroupSources(inputs, field);
    GroupVersions(inputs, field);
    hide Groups, TakesPart, AllAgree, SourcesOf, VersionsOf, Links, AllRows;
  }

  lemma DisagreementReported(inputs: seq<Input>, field: Field, x: Input, y: Input)
    requires x in inputs && y in inputs && Disagree(field, x, y)
    ensures Difference(inputs, field) != []
  {
    InGroups(inputs, field, x);
    InGroups(inputs, field, y);
    hide Groups, Active, Signatures, Links, AllRows, DifferenceCode;
    assert x in Groups(inputs, field) && y in Groups(inputs, field);
  }

  lemma ReportedDisagreement(inputs: seq<Input>, field: Field)
    requires Difference(inputs, field) != []
    ensures exists x, y :: x in inputs && y in inputs && Disagree(field, x, y)
  {
    var groups := Groups(inputs, field);
    hide Active, Groups, Signatures, Links, AllRows, DifferenceCode;
    var g :| g in groups && Signatures(Active(g.report, field)) != Signatures(Active(groups[0].report, field));
    InGroups(inputs, field, g);
    InGroups(inputs, field, groups[0]);
    assert Disagree(field, g, groups[0]);
  }

  // ----- What the findings within one extraction mean, in terms of its checks

  predicate LiveFor(report: Report, field: Field, i: nat)
    requires i < |report.checks|
  {
    var check := report.checks[i];
    !check.status.RejectedCheck? && check.observation.missing.None? && check.observation.field == field
  }

  /** Check `i` is a live candidate for `field` with this signature. */
  predicate Shows(report: Report, field: Field, i: nat, s: Signature) {
    i < |report.checks| && LiveFor(report, field, i) && SignatureOf(report.checks[i].observation) == s
  }

  /** Some live check has a candidate for `field`, and all of them say `value` in `unit`. */
  ghost predicate Says(report: Report, field: Field, value: Json, unit: Option<string>) {
    && (exists i: nat :: Shows(report, field, i, (value, unit)))
    && (forall i: nat :: i < |report.checks| && LiveFor(report, field, i) ==> Shows(report, field, i, (value, unit)))
  }

  lemma {:induction false} ActiveRow(report: Report, field: Field, n: nat, r: Row) returns (i: nat)
    requires n <= |report.checks| && r in ActiveUpTo(report, field, n)
    ensures i < n && Shows(report, field, i, SignatureOf(r.observation))
  {
    if r in ActiveUpTo(report, field, n - 1) {
      i := ActiveRow(report, field, n - 1, r);
    } else {
      i := n - 1;
    }
  }

  lemma {:induction false} ShownRow(report: Report, field: Field, n: nat, i: nat, s: Signature) returns (r: Row)
    requires i < n <= |report.checks| && Shows(report, field, i, s)
    ensures r in ActiveUpTo(report, field, n) && SignatureOf(r.observation) == s
  {
    if i < n - 1 {
      r := ShownRow(report, field, n - 1, i, s);
    } else {
      r := Row(report.checks[i].observation, Link(report.run, report.checks[i].index));
    }
  }

  /** The signatures of the active rows are those the live checks show. */
  lemma SignaturesShown(report: Report, field: Field, s: Signature)
    ensures s in Signatures(Active(report, field)) <==> exists i: nat :: Shows(report, field, i, s)
  {
    var rows, n := Active(report, field), |report.checks|;
    if s in Signatures(rows) {
      var r :| r in rows && SignatureOf(r.observation) == s;
      var i := ActiveRow(report, field, n, r);
    }
    if i: nat :| Shows(report, field, i, s) {
      var r := ShownRow(report, field, n, i, s);
      assert r in rows;
    }
  }

  lemma UniqueSignature(rows: seq<Row>, s: Signature)
    ensures Unique(rows).Some? && SignatureOf(Unique(rows).value) == s <==> Signatures(rows) == {s}
  {
    if rows != [] {
      assert rows[0] in rows && SignatureOf(rows[0].observation) in Signatures(rows);
      if |Signatures(rows)| == 1 { OnlyMember(Signatures(rows), SignatureOf(rows[0].observation)); }
    }
  }

  lemma UniqueIffSays(report: Report, field: Field, value: Json, unit: Option<string>)
    ensures Says(report, field, value, unit) <==>
      Unique(Active(report, field)).Some? && SignatureOf(Unique(Active(report, field)).value) == (value, unit)
  {
    var s := (value, unit);
    UniqueSignature(Active(report, field), s);
    hide Unique, Signatures, Active, Says;
    if Signatures(Active(report, field)) == {s} { OneSignatureSays(report, field, value, unit); }
    if Says(report, field, value, unit) { SaysOneSignature(report, field, value, unit); }
  }

  lemma OneSignatureSays(report: Report, field: Field, value: Json, unit: Option<string>)
    requires Signatures(Active(report, field)) == {(value, unit)}
    ensures Says(report, field, value, unit)
  {
    hide Signatures, Active, Live;
    SignaturesShown(report, field, (value, unit));
    forall i: nat | i < |report.checks| && LiveFor(report, field, i)
      ensures Shows(report, field, i, (value, unit))
    {
      var t := SignatureOf(report.checks[i].observation);
      assert Shows(report, field, i, t);
      SignaturesShown(report, field, t);
    }
  }

  lemma SaysOneSignature(report: Report, field: Field, value: Json, unit: Option<string>)
    requires Says(report, field, value, unit)
    ensures Signatures(Active(report, field)) == {(value, unit)}
  {
    hide Signatures, Active, Live;
    SignaturesShown(report, field, (value, unit));
    forall t | t in Signatures(Active(report, field))
      ensures t == (value, unit)
    {
      SignaturesShown(report, field, t);
      var i: nat :| Shows(report, field, i, t);
      assert Shows(report, field, i, (value, unit));
    }
  }

  lemma OnlyMember<T>(all: set<T>, x: T)
    requires x in all && |all| == 1
    ensures all == {x}
  {
    assert |all - {x}| == 0;
  }

  /** Two candidate lists settle on one value and unit each. */
  ghost predicate BothSay(report: Report, first: Field, second: Field, x: Observation, y: Observation) {
    Says(report, first, x.value, x.unit) && Says(report, second, y.value, y.unit)
  }

  lemma UniqueBothSay(report: Report, first: Field, second: Field, x: Observation, y: Observation)
    ensures BothSay(report, first, second, x, y) <==>
      && Unique(Active(report, first)).Some? && SignatureOf(Unique(Active(report, first)).value) == SignatureOf(x)
      && Unique(Active(report, second)).Some? && SignatureOf(Unique(Active(report, second)).value) == SignatureOf(y)
  {
    UniqueIffSays(report, first, x.value, x.unit);
    UniqueIffSays(report, second, y.value, y.unit);
    hide Says, Unique, Active;
  }

  /** Reversed dates are reported exactly when the candidates settle on a start after the end. */
  lemma ReversedIff(report: Report, start: Field, end: Field)
    ensures (exists f :: f in DatePair(report, start, end) && f.code == DateOrderReversed) <==>
      exists x, y :: BothSay(report, start, end, x, y)
        && DateOf(x.value).Some? && DateOf(y.value).Some? && DateLess(DateOf(y.value).value, DateOf(x.value).value)
  {
    ReversedMeans(report, start, end);
    var x, y := Unique(Active(report, start)), Unique(Active(report, end));
    hide BothSay, Active, Unique, Links, DateOf, DateLess, DatePair;
    if x.Some? && y.Some? {
      UniqueBothSay(report, start, end, x.value, y.value);
    }
    forall a, b | BothSay(report, start, end, a, b)
      ensures x.Some? && y.Some? && a.value == x.value.value && b.value == y.value.value
    {
      UniqueBothSay(report, start, end, a, b);
    }
  }

  lemma ReversedMeans(report: Report, start: Field, end: Field)
    ensures (exists f :: f in DatePair(report, start, end) && f.code == DateOrderReversed) <==>
      var x, y := Unique(Active(report, start)), Unique(Active(report, end));
      && x.Some? && y.Some? && DateOf(x.value.value).Some? && DateOf(y.value.value).Some?
      && DateLess(DateOf(y.value.value).value, DateOf(x.value.value).value)
  {
    var pair := DatePair(report, start, end);
    hide Links, DateOf, DateLess, Signatures, ActiveUpTo;
    assert pair != [] ==> pair[0] in pair;
  }

  lemma ActiveEmptyIff(report: Report, field: Field)
    ensures Active(report, field) == [] <==> forall i: nat :: i < |report.checks| ==> !LiveFor(report, field, i)
  {
    var rows, n := Active(report, field), |report.checks|;
    if rows != [] {
      assert rows[0] in rows;
      var i := ActiveRow(report, field, n, rows[0]);
    }
    forall i: nat | i < n && LiveFor(report, field, i)
      ensures rows != []
    {
      var r := ShownRow(report, field, n, i, SignatureOf(report.checks[i].observation));
    }
  }

  lemma NotEvaluableMeans(report: Report, start: Field, end: Field)
    ensures (exists f :: f in DatePair(report, start, end) && f.code == DatePairNotEvaluable) <==>
      var x, y := Unique(Active(report, start)), Unique(Active(report, end));
      x.Some? && y.Some? && (DateOf(x.value.value).None? || DateOf(y.value.value).None?)
  {
    var pair := DatePair(report, start, end);
    hide Links, DateOf, DateLess, Signatures, ActiveUpTo;
    assert pair != [] ==> pair[0] in pair;
  }

  /** A date pair is not evaluable exactly when the candidates settle on both ends and one of them is no calendar date. */
  lemma NotEvaluableIff(report: Report, start: Field, end: Field)
    ensures (exists f :: f in DatePair(report, start, end) && f.code == DatePairNotEvaluable) <==>
      exists x, y :: BothSay(report, start, end, x, y) && (DateOf(x.value).None? || DateOf(y.value).None?)
  {
    NotEvaluableMeans(report, start, end);
    var x, y := Unique(Active(report, start)), Unique(Active(report, end));
    hide BothSay, Active, Unique, DateOf, DatePair;
    if x.Some? && y.Some? {
      UniqueBothSay(report, start, end, x.value, y.value);
    }
    forall a, b | BothSay(report, start, end, a, b)
      ensures x.Some? && y.Some? && a.value == x.value.value && b.value == y.value.value
    {
      UniqueBothSay(report, start, end, a, b);
    }
  }

  lemma IncompleteMeans(report: Report, start: Field, end: Field)
    ensures (exists f :: f in DatePair(report, start, end) && f.code == DatePairIncomplete) <==>
      && (Active(report, start) != [] || Active(report, end) != [])
      && (Unique(Active(report, start)).None? || Unique(Active(report, end)).None?)
  {
    var pair := DatePair(report, start, end);
    hide Links, DateOf, DateLess, Signatures, ActiveUpTo;
    assert pair != [] ==> pair[0] in pair;
  }

  /** A date pair is incomplete or conflicting exactly when there are live candidates but they do not settle on both ends. */
  lemma IncompleteIff(report: Report, start: Field, end: Field)
    ensures (exists f :: f in DatePair(report, start, end) && f.code == DatePairIncomplete) <==>
      && (exists i: nat :: i < |report.checks| && (LiveFor(report, start, i) || LiveFor(report, end, i)))
      && !(exists x, y :: BothSay(report, start, end, x, y))
  {
    IncompleteMeans(report, start, end);
    ActiveEmptyIff(report, start);
    ActiveEmptyIff(report, end);
    var x, y := Unique(Active(report, start)), Unique(Active(report, end));
    hide BothSay, Active, Unique, DatePair, LiveFor;
    if x.Some? && y.Some? {
      UniqueBothSay(report, start, end, x.value, y.value);
    }
    forall a, b | BothSay(report, start, end, a, b)
      ensures x.Some? && y.Some?
    {
      UniqueBothSay(report, start, end, a, b);
    }
  }

  /** The applicability finding: the flag settles on false while the value settles on a nonzero number. */
  lemma ApplicabilityIff(report: Report, flag: Field, value: Field)
    ensures Applicability(report, flag, value) != [] <==>
      exists x, y :: BothSay(report, flag, value, x, y) && x.value == JBool(false)
        && ((y.value.JInt? && y.value.n != 0) || (y.value.JFloat? && y.value.d.coef != 0))
  {
    var x, y := Unique(Active(report, flag)), Unique(Active(report, value));
    assert Applicability(report, flag, value) != [] <==>
      x.Some? && y.Some? && x.value.value == JBool(false) && NonzeroNumber(y.value.value);
    hide BothSay, Active, Unique, Links, Applicability;
    if x.Some? && y.Some? {
      UniqueBothSay(report, flag, value, x.value, y.value);
    }
    forall a, b | BothSay(report, flag, value, a, b)
      ensures x.Some? && y.Some? && a.value == x.value.value && b.value == y.value.value
    {
      UniqueBothSay(report, flag, value, a, b);
    }
  }

  /** The energy finding: both amounts settle, on different units. */
  lemma EnergyIff(report: Report)
    ensures EnergyUnits(report) != [] <==>
      exists x, y :: BothSay(report, ElectricityGeneratedMwh, ElectricityExportedMwh, x, y) && x.unit != y.unit
  {
    var x, y := Unique(Active(report, ElectricityGeneratedMwh)), Unique(Active(report, ElectricityExportedMwh));
    assert EnergyUnits(report) != [] <==> x.Some? && y.Some? && x.value.unit != y.value.unit;
    hide BothSay, Active, Unique, EnergyUnits;
    if x.Some? && y.Some? {
      UniqueBothSay(report, ElectricityGeneratedMwh, ElectricityExportedMwh, x.value, y.value);
    }
    forall a, b | BothSay(report, ElectricityGeneratedMwh, ElectricityExportedMwh, a, b)
      ensures x.Some? && y.Some? && a.unit == x.value.unit && b.unit == y.value.unit
    {
      UniqueBothSay(report, ElectricityGeneratedMwh, ElectricityExportedMwh, a, b);
    }
  }

  /** Check `i` of input `k` is a live candidate for `field` with value `value`. */
  ghost predicate Offers(inputs: seq<Input>, k: nat, field: Field, i: nat, value: Json) {
    && k < |inputs| && i < |inputs[k].report.checks| && LiveFor(inputs[k].report, field, i)
    && inputs[k].report.checks[i].observation.value == value
  }

  lemma {:induction false} RowOffered(inputs: seq<Input>, field: Field, r: Row) returns (k: nat, i: nat)
    requires r in AllRows(inputs, field)
    ensures Offers(inputs, k, field, i, r.observation.value)
  {
    var front, last := inputs[..|inputs| - 1], |inputs| - 1;
    if r in AllRows(front, field) {
      k, i := RowOffered(front, field, r);
    } else {
      k := last;
      i := ActiveRow(inputs[last].report, field, |inputs[last].report.checks|, r);
    }
  }

  lemma {:induction false} OfferedRow(inputs: seq<Input>, field: Field, k: nat, i: nat, value: Json) returns (r: Row)
    requires Offers(inputs, k, field, i, value)
    ensures r in AllRows(inputs, field) && r.observation.value == value
  {
    var front, last := inputs[..|inputs| - 1], |inputs| - 1;
    if k < last {
      r := OfferedRow(front, field, k, i, value);
    } else {
      var report := inputs[last].report;
      r := ShownRow(report, field, |report.checks|, i, SignatureOf(report.checks[i].observation));
    }
  }

  /** The methodology counts as confirmed exactly when there are live candidates and all of them say ACM0002. */
  lemma MethodologyIff(inputs: seq<Input>)
    ensures Methodology(inputs) == [] <==>
      && (exists k, i, v :: Offers(inputs, k, MethodologyName, i, v))
      && (forall k, i, v :: Offers(inputs, k, MethodologyName, i, v) ==> v == JStr("ACM0002"))
  {
    var rows := AllRows(inputs, MethodologyName);
    hide AllRows, Links, Offers;
    if rows != [] {
      assert rows[0] in rows;
      var k, i := RowOffered(inputs, MethodologyName, rows[0]);
    }
    forall k, i, v | Offers(inputs, k, MethodologyName, i, v)
      ensures exists r :: r in rows && r.observation.value == v
    {
      var r := OfferedRow(inputs, MethodologyName, k, i, v);
    }
    forall r | r in rows
      ensures exists k, i :: Offers(inputs, k, MethodologyName, i, r.observation.value)
    {
      var k, i := RowOffered(inputs, MethodologyName, r);
    }
  }
}
