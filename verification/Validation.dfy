/**
 Mechanical validation of extracted candidates: exact evidence and the shape a field's contract
 asks for.
 */
module Validation {
  import opened Wrappers
  import opened Fields
  import opened Text
  import opened Calendar
  import opened Domain

  datatype ValidationError = BadThreshold | IdentityMismatch

  type Candidate = (Json, Option<string>)

  /** The distinct value/unit pairs offered for `field`. */
  function Candidates(observations: seq<Observation>, field: Field): set<Candidate> {
    set i | 0 <= i < |observations| && observations[i].missing.None? && observations[i].field == field ::
      (observations[i].value, observations[i].unit)
  }

  function EvidenceIssues(parsed: ParsedDocument, e: Evidence): seq<Issue> {
    if e.version != parsed.version then [Issue(EvidenceVersionInvalid, Error)]
    else if !(1 <= e.page <= |parsed.pages|) then [Issue(EvidencePageInvalid, Error)]
    else
      var text := parsed.pages[e.page - 1];
      if Blank(e.quote) || !Occurs(text, e.quote) then [Issue(EvidenceQuoteMissing, Error)]
      else if e.start.None? || e.end.None? then [Issue(EvidenceOffsetsMissing, Review)]
      else if e.end.value > |text| || Slice(text, e.start.value, e.end.value) != e.quote then
        [Issue(EvidenceOffsetsInvalid, Error)]
      else []
  }

  function AllEvidenceIssues(parsed: ParsedDocument, evidence: seq<Evidence>): seq<Issue> {
    if evidence == [] then []
    else
      var last := |evidence| - 1;
      AllEvidenceIssues(parsed, evidence[..last]) + EvidenceIssues(parsed, evidence[last])
  }

  predicate TypeFits(kind: Kind, value: Json) {
    match kind
    case Flag => value.JBool?
    case Count => value.JInt?
    case Number => value.JInt? || value.JFloat?
    case Day | Words => value.JStr? && !Blank(value.s)
    case Pending => true
  }

  /** Capacity is the one number that must be strictly positive. */
  predicate StrictlyPositive(field: Field) { field.InstalledCapacityMw? }

  function KindIssues(kind: Kind, positive: bool, value: Json): seq<Issue> {
    if !TypeFits(kind, value) then [Issue(FieldTypeInvalid, Error)]
    else match kind
      case Count | Number =>
        var sign := value.AsDec().coef;
        if (kind.Count? && sign < 0) || (positive && sign <= 0) then [Issue(NumericRangeInvalid, Error)]
        else if sign < 0 then [Issue(NegativeValueRequiresDomainRule, Review)]
        else []
      case Day =>
        if !DateShaped(value.s) then [Issue(DateFormatUnresolved, Review)]
        else if ParseDate(value.s).None? then [Issue(DateCalendarInvalid, Error)]
        else []
      case Flag | Words => []
      case Pending => [Issue(FieldContractPending, Review)]
  }

  function ValueIssues(field: Field, value: Json): seq<Issue> {
    KindIssues(KindOf(field), StrictlyPositive(field), value)
  }

  function UnitIssues(field: Field, unit: Option<string>): seq<Issue> {
    if ExpectedUnit(field).Some? && unit != ExpectedUnit(field) then [Issue(UnitUnverified, Review)] else []
  }

  function ConfidenceIssues(confidence: Option<real>, threshold: real): seq<Issue> {
    if confidence.None? then [Issue(ConfidenceUnknown, Review)]
    else if confidence.value < threshold then [Issue(ConfidenceBelowThreshold, Review)]
    else []
  }

  /** Every issue raised for one observation, in the order the validator appends them. */
  function ObservationIssues(parsed: ParsedDocument, o: Observation, conflict: bool, threshold: real): seq<Issue> {
    AllEvidenceIssues(parsed, o.evidence) +
    (if o.missing.Some? then
       (if o.missing.value.Ambiguous? then [Issue(AmbiguousAbstention, Review)] else [])
     else
       ValueIssues(o.field, o.value) + UnitIssues(o.field, o.unit) + ConfidenceIssues(o.confidence, threshold) +
       (if conflict then [Issue(CandidateConflict, Review)] else []) + [Issue(SemanticSupportPending, Review)])
  }

  function StatusOf(issues: seq<Issue>): CheckStatus {
    if HasError(issues) then RejectedCheck else if issues != [] then NeedsReview else MissingValue
  }

  function CheckOf(parsed: ParsedDocument, observations: seq<Observation>, threshold: real, i: nat): Check
    requires i < |observations|
  {
    var o := observations[i];
    var issues := ObservationIssues(parsed, o, |Candidates(observations, o.field)| > 1, threshold);
    Check(i, o, StatusOf(issues), issues)
  }

  predicate Accepted(parsed: ParsedDocument, extraction: Extraction, threshold: real) {
    && 0.0 <= threshold <= 1.0
    && extraction.parsed == parsed.id && extraction.version == parsed.version && extraction.run.Some?
  }

  function ReportOf(parsed: ParsedDocument, extraction: Extraction, run: Id, threshold: real): Report
    requires Accepted(parsed, extraction, threshold)
  {
    Report(run, extraction.run.value, parsed.id, parsed.version, extraction.project, extraction.registry,
           seq(|extraction.observations|, i requires 0 <= i < |extraction.observations| =>
             CheckOf(parsed, extraction.observations, threshold, i)))
  }

  /** First pass: the candidates of every field that has one, grouped in a dictionary of sets. */
  method CollectCandidates(observations: seq<Observation>) returns (candidates: map<Field, set<Candidate>>)
    ensures forall f :: f in candidates <==> Candidates(observations, f) != {}
    ensures forall f :: f in candidates ==> candidates[f] == Candidates(observations, f)
  {
    candidates := map[];
    for i := 0 to |observations|
      invariant forall f :: f in candidates <==> Candidates(observations[..i], f) != {}
      invariant forall f :: f in candidates ==> candidates[f] == Candidates(observations[..i], f)
    {
      var o := observations[i];
      CandidatesStep(observations, i);
      if o.missing.None? {
        var known := if o.field in candidates then candidates[o.field] else {};
        candidates := candidates[o.field := known + {(o.value, o.unit)}];
      }
    }
    assert observations[..|observations|] == observations;
  }

  /** Second pass, one observation: evidence first, then the abstention or the value. */
  method CheckObservation(parsed: ParsedDocument, o: Observation, conflict: bool, threshold: real)
    returns (issues: seq<Issue>)
    ensures issues == ObservationIssues(parsed, o, conflict, threshold)
  {
    issues := [];
    for j := 0 to |o.evidence|
      invariant issues == AllEvidenceIssues(parsed, o.evidence[..j])
    {
      assert o.evidence[..j + 1][..j] == o.evidence[..j];
      issues := issues + EvidenceIssues(parsed, o.evidence[j]);
    }
    assert o.evidence[..|o.evidence|] == o.evidence;
    if o.missing.Some? {
      if o.missing.value.Ambiguous? {
        issues := issues + [Issue(AmbiguousAbstention, Review)];
      }
    } else {
      var value := ValueIssues(o.field, o.value) + UnitIssues(o.field, o.unit) + ConfidenceIssues(o.confidence, threshold);
      if conflict {
        value := value + [Issue(CandidateConflict, Review)];
      }
      issues := issues + (value + [Issue(SemanticSupportPending, Review)]);
    }
  }

  /** Second pass over all observations, each against the whole field's candidates. */
  method CheckObservations(parsed: ParsedDocument, observations: seq<Observation>, threshold: real) returns (checks: seq<Check>)
    ensures |checks| == |observations|
    ensures forall i :: 0 <= i < |observations| ==> checks[i] == CheckOf(parsed, observations, threshold, i)
  {
    var candidates := CollectCandidates(observations);
    hide ObservationIssues, StatusOf;
    checks := [];
    for index := 0 to |observations|
      invariant |checks| == index
      invariant forall i :: 0 <= i < index ==> checks[i] == CheckOf(parsed, observations, threshold, i)
    {
      var o := observations[index];
      var conflict := o.field in candidates && |candidates[o.field]| > 1;
      assert conflict == (|Candidates(observations, o.field)| > 1);
      var issues := CheckObservation(parsed, o, conflict, threshold);
      var check := Check(index, o, StatusOf(issues), issues);
      assert check == CheckOf(parsed, observations, threshold, index);
      hide CheckOf, Candidates;
      checks := checks + [check];
    }
  }

  method ValidateExtraction(parsed: ParsedDocument, extraction: Extraction, run: Id, threshold: real)
    returns (r: Result<Report, ValidationError>)
    ensures r.Ok? <==> 0.0 <= threshold <= 1.0 && extraction.parsed == parsed.id && extraction.version == parsed.version && extraction.run.Some?
    ensures r.Ok? ==> Accepted(parsed, extraction, threshold) && r.value == ReportOf(parsed, extraction, run, threshold)
    ensures r.Err? ==> (r.error.BadThreshold? <==> !(0.0 <= threshold <= 1.0))
  {
    if !(0.0 <= threshold <= 1.0) {
      return Err(BadThreshold);
    }
    if extraction.parsed != parsed.id || extraction.version != parsed.version || extraction.run.None? {
      return Err(IdentityMismatch);
    }
    var checks := CheckObservations(parsed, extraction.observations, threshold);
    r := Ok(Report(run, extraction.run.value, parsed.id, parsed.version, extraction.project, extraction.registry, checks));
    assert checks == ReportOf(parsed, extraction, run, threshold).checks;
  }

  function Offered(o: Observation, field: Field): set<Candidate> {
    if o.missing.None? && o.field == field then {(o.value, o.unit)} else {}
  }

  lemma CandidatesStep(observations: seq<Observation>, i: nat)
    requires i < |observations|
    ensures forall f :: Candidates(observations[..i + 1], f) == Candidates(observations[..i], f) + Offered(observations[i], f)
  {
    var before, after := observations[..i], observations[..i + 1];
    forall f
      ensures Candidates(after, f) == Candidates(before, f) + Offered(observations[i], f)
    {
      forall c | c in Candidates(before, f)
        ensures c in Candidates(after, f)
      {
        var k :| 0 <= k < |before| && before[k].missing.None? && before[k].field == f && c == (before[k].value, before[k].unit);
        assert after[k] == before[k];
      }
      assert after[i] == observations[i];
    }
  }

  // ----- What an accepted candidate guarantees

  /** The cited quote is real text of the cited page of this very document, at the cited offsets. */
  predicate Grounded(parsed: ParsedDocument, e: Evidence) {
    && e.version == parsed.version
    && 1 <= e.page <= |parsed.pages|
    && !Blank(e.quote)
    && e.start.Some? && e.end.Some?
    && e.start.value <= e.end.value <= |parsed.pages[e.page - 1]|
    && parsed.pages[e.page - 1][e.start.value..e.end.value] == e.quote
  }

  predicate KindFits(kind: Kind, positive: bool, value: Json) {
    match kind
    case Flag => value.JBool?
    case Count => value.JInt? && (if positive then 0 < value.n else 0 <= value.n)
    case Number =>
      (value.JInt? || value.JFloat?) && (if positive then 0 < value.AsDec().coef else 0 <= value.AsDec().coef)
    case Day => value.JStr? && ParseDate(value.s).Some?
    case Words => value.JStr? && !Blank(value.s)
    case Pending => false
  }

  /** The value meets its field's contract: kind, sign, calendar and expected unit. */
  predicate ValueFits(field: Field, value: Json, unit: Option<string>) {
    && KindFits(KindOf(field), StrictlyPositive(field), value)
    && (ExpectedUnit(field).Some? ==> unit == ExpectedUnit(field))
  }

  predicate WellFounded(parsed: ParsedDocument, o: Observation) {
    && o.missing.None?
    && o.evidence != []
    && (forall i :: 0 <= i < |o.evidence| ==> Grounded(parsed, o.evidence[i]))
    && ValueFits(o.field, o.value, o.unit)
  }

  function CodesOf(issues: seq<Issue>): set<Code> {
    set i | 0 <= i < |issues| :: issues[i].code
  }

  const SOFT_CODES: set<Code> := {SemanticSupportPending, ConfidenceUnknown, ConfidenceBelowThreshold}

  lemma CodesOfConcat(a: seq<Issue>, b: seq<Issue>)
    ensures CodesOf(a + b) == CodesOf(a) + CodesOf(b)
  {
    forall c | c in CodesOf(a) + CodesOf(b)
      ensures c in CodesOf(a + b)
    {
      if c in CodesOf(a) {
        var i :| 0 <= i < |a| && a[i].code == c;
        assert (a + b)[i].code == c;
      } else {
        var i :| 0 <= i < |b| && b[i].code == c;
        assert (a + b)[|a| + i].code == c;
      }
    }
  }

  lemma EvidenceIssuesGrounded(parsed: ParsedDocument, e: Evidence)
    requires e.Valid()
    ensures EvidenceIssues(parsed, e) == [] <==> Grounded(parsed, e)
    ensures CodesOf(EvidenceIssues(parsed, e)) !! SOFT_CODES
    ensures EvidenceIssues(parsed, e) == [] <==> CodesOf(EvidenceIssues(parsed, e)) == {}
  {
    if EvidenceIssues(parsed, e) != [] {
      assert EvidenceIssues(parsed, e)[0].code in CodesOf(EvidenceIssues(parsed, e));
    }
    if Grounded(parsed, e) {
      var text := parsed.pages[e.page - 1];
      assert |e.quote| == e.end.value - e.start.value;
      assert OccursAt(text, e.quote, e.start.value);
    }
  }

  lemma {:induction false} AllEvidenceGrounded(parsed: ParsedDocument, evidence: seq<Evidence>)
    requires forall i :: 0 <= i < |evidence| ==> evidence[i].Valid()
    ensures CodesOf(AllEvidenceIssues(parsed, evidence)) !! SOFT_CODES
    ensures CodesOf(AllEvidenceIssues(parsed, evidence)) == {} <==>
            forall i :: 0 <= i < |evidence| ==> Grounded(parsed, evidence[i])
  {
    if evidence != [] {
      var last := |evidence| - 1;
      var front := evidence[..last];
      AllEvidenceGrounded(parsed, front);
      EvidenceIssuesGrounded(parsed, evidence[last]);
      CodesOfConcat(AllEvidenceIssues(parsed, front), EvidenceIssues(parsed, evidence[last]));
      assert forall i :: 0 <= i < last ==> front[i] == evidence[i];
    }
  }

  lemma NoKindIssuesIffFits(kind: Kind, positive: bool, value: Json)
    ensures KindIssues(kind, positive, value) == [] <==> KindFits(kind, positive, value)
    ensures CodesOf(KindIssues(kind, positive, value)) !! SOFT_CODES
  {
    if kind.Day? && value.JStr? {
      DateShapedIsNotBlank(value.s);
    }
  }

  lemma NoCodesIffNone(issues: seq<Issue>)
    ensures CodesOf(issues) == {} <==> issues == []
  {
    if issues != [] { assert issues[0].code in CodesOf(issues); }
  }

  lemma ValueIssuesFit(field: Field, value: Json, unit: Option<string>)
    ensures CodesOf(ValueIssues(field, value) + UnitIssues(field, unit)) !! SOFT_CODES
    ensures CodesOf(ValueIssues(field, value) + UnitIssues(field, unit)) == {} <==> ValueFits(field, value, unit)
  {
    NoKindIssuesIffFits(KindOf(field), StrictlyPositive(field), value);
    assert CodesOf(UnitIssues(field, unit)) !! SOFT_CODES;
    CodesOfConcat(ValueIssues(field, value), UnitIssues(field, unit));
    NoCodesIffNone(ValueIssues(field, value));
    NoCodesIffNone(UnitIssues(field, unit));
    hide KindIssues, KindFits, KindOf, StrictlyPositive, ExpectedUnit, CodesOf;
  }

  /**
   For one candidate alone, the only codes left are the three a human reviewer may override exactly
   when its evidence is grounded and its value meets the contract.
   */
  lemma OnlySoftCodesIffWellFounded(parsed: ParsedDocument, o: Observation, threshold: real)
    requires o.Valid() && o.missing.None?
    ensures CodesOf(ObservationIssues(parsed, o, false, threshold)) <= SOFT_CODES <==> WellFounded(parsed, o)
  {
    var evidence := AllEvidenceIssues(parsed, o.evidence);
    var value := ValueIssues(o.field, o.value) + UnitIssues(o.field, o.unit);
    var soft := ConfidenceIssues(o.confidence, threshold) + [] + [Issue(SemanticSupportPending, Review)];
    assert ObservationIssues(parsed, o, false, threshold) == evidence + (value + soft);
    AllEvidenceGrounded(parsed, o.evidence);
    ValueIssuesFit(o.field, o.value, o.unit);
    hide ObservationIssues, AllEvidenceIssues, ValueIssues, UnitIssues, Grounded, ValueFits;
    CodesOfConcat(evidence, value + soft);
    CodesOfConcat(value, soft);
    assert CodesOf(soft) <= SOFT_CODES;
  }

  /** Validation always yields a report that the report model itself accepts, and one about what was validated. */
  lemma ReportIsValid(parsed: ParsedDocument, extraction: Extraction, run: Id, threshold: real)
    requires Accepted(parsed, extraction, threshold) && extraction.Valid()
    ensures ReportOf(parsed, extraction, run, threshold).Valid()
    ensures var r := ReportOf(parsed, extraction, run, threshold);
      && r.run == run && extraction.run == Some(r.extractionRun) && r.parsed == parsed.id && r.version == parsed.version
      && r.project == extraction.project && r.registry == extraction.registry
      && |r.checks| == |extraction.observations|
    ensures forall i :: 0 <= i < |extraction.observations| ==>
      ReportOf(parsed, extraction, run, threshold).checks[i].observation == extraction.observations[i]
  {
    forall i | 0 <= i < |extraction.observations|
      ensures CheckOf(parsed, extraction.observations, threshold, i).Valid()
    {
      var o := extraction.observations[i];
      var issues := CheckOf(parsed, extraction.observations, threshold, i).issues;
      if o.missing.None? {
        assert issues[|issues| - 1] == Issue(SemanticSupportPending, Review);
      }
    }
  }

  // ----- Which issue is raised for what

  /** Some reference of the observation is at fault in this way; earlier faults of a reference hide later ones. */
  predicate EvidenceRaises(parsed: ParsedDocument, evidence: seq<Evidence>, code: Code) {
    exists j :: 0 <= j < |evidence| && ReferenceRaises(parsed, evidence[j], code)
  }

  predicate ReferenceRaises(parsed: ParsedDocument, e: Evidence, code: Code) {
    var here, paged := e.version == parsed.version, 1 <= e.page <= |parsed.pages|;
    var quoted := paged && !Blank(e.quote) && Occurs(parsed.pages[e.page - 1], e.quote);
    match code
    case EvidenceVersionInvalid => !here
    case EvidencePageInvalid => here && !paged
    case EvidenceQuoteMissing => here && paged && !quoted
    case EvidenceOffsetsMissing => here && quoted && !(e.start.Some? && e.end.Some?)
    case EvidenceOffsetsInvalid =>
      && here && quoted && e.start.Some? && e.end.Some?
      && !(e.end.value <= |parsed.pages[e.page - 1]| && Slice(parsed.pages[e.page - 1], e.start.value, e.end.value) == e.quote)
    case _ => false
  }

  predicate KindRaises(kind: Kind, positive: bool, value: Json, code: Code) {
    match code
    case FieldContractPending => kind.Pending?
    case FieldTypeInvalid => !kind.Pending? && !TypeFits(kind, value)
    case NumericRangeInvalid =>
      && (kind.Count? || kind.Number?) && TypeFits(kind, value)
      && (if positive then value.AsDec().coef <= 0 else kind.Count? && value.AsDec().coef < 0)
    case NegativeValueRequiresDomainRule => kind.Number? && TypeFits(kind, value) && !positive && value.AsDec().coef < 0
    case DateFormatUnresolved => kind.Day? && TypeFits(kind, value) && !DateShaped(value.s)
    case DateCalendarInvalid => kind.Day? && value.JStr? && DateShaped(value.s) && ParseDate(value.s).None?
    case _ => false
  }

  predicate ValueRaises(field: Field, value: Json, unit: Option<string>, code: Code) {
    || KindRaises(KindOf(field), field.InstalledCapacityMw?, value, code)
    || (code.UnitUnverified? && ExpectedUnit(field).Some? && unit != ExpectedUnit(field))
  }

  /** Another candidate of the same field says something else. */
  predicate Contradicted(observations: seq<Observation>, i: nat)
    requires i < |observations|
  {
    exists j :: 0 <= j < |observations| && observations[j].missing.None? && observations[j].field == observations[i].field
      && (observations[j].value != observations[i].value || observations[j].unit != observations[i].unit)
  }

  /** Observation `i` deserves the issue `code`. */
  predicate Deserves(parsed: ParsedDocument, observations: seq<Observation>, threshold: real, i: nat, code: Code)
    requires i < |observations|
  {
    var o := observations[i];
    || EvidenceRaises(parsed, o.evidence, code)
    || (if o.missing.Some? then o.missing.value.Ambiguous? && code.AmbiguousAbstention?
        else
          || ValueRaises(o.field, o.value, o.unit, code)
          || (code.ConfidenceUnknown? && o.confidence.None?)
          || (code.ConfidenceBelowThreshold? && o.confidence.Some? && o.confidence.value < threshold)
          || (code.CandidateConflict? && Contradicted(observations, i))
          || code.SemanticSupportPending?)
  }

  lemma OneCode(issue: Issue)
    ensures CodesOf([issue]) == {issue.code}
  {
    assert [issue][0].code in CodesOf([issue]);
  }

  lemma ReferenceCodes(parsed: ParsedDocument, e: Evidence, code: Code)
    ensures code in CodesOf(EvidenceIssues(parsed, e)) <==> ReferenceRaises(parsed, e, code)
  {
    if EvidenceIssues(parsed, e) != [] { OneCode(EvidenceIssues(parsed, e)[0]); }
    hide CodesOf, Blank, Occurs, Slice;
    assert CodesOf([]) == {} by { NoCodesIffNone([]); }
  }

  lemma {:induction false} EvidenceCodesRaised(parsed: ParsedDocument, evidence: seq<Evidence>, code: Code)
    ensures code in CodesOf(AllEvidenceIssues(parsed, evidence)) <==> EvidenceRaises(parsed, evidence, code)
  {
    hide CodesOf, ReferenceRaises;
    if evidence == [] {
      NoCodesIffNone([]);
    } else {
      var front, last := evidence[..|evidence| - 1], evidence[|evidence| - 1];
      EvidenceCodesRaised(parsed, front, code);
      ReferenceCodes(parsed, last, code);
      CodesOfConcat(AllEvidenceIssues(parsed, front), EvidenceIssues(parsed, last));
      assert forall j :: 0 <= j < |front| ==> front[j] == evidence[j];
    }
  }

  lemma KindCodesRaised(kind: Kind, positive: bool, value: Json, code: Code)
    ensures code in CodesOf(KindIssues(kind, positive, value)) <==> KindRaises(kind, positive, value, code)
  {
    hide CodesOf, Blank, DateShaped, ParseDate;
    if kind.Day? && value.JStr? { DateShapedIsNotBlank(value.s); }
    var issues := KindIssues(kind, positive, value);
    if issues == [] { NoCodesIffNone([]); } else { OneCode(issues[0]); }
  }

  lemma ValueCodesRaised(field: Field, value: Json, unit: Option<string>, code: Code)
    ensures code in CodesOf(ValueIssues(field, value) + UnitIssues(field, unit)) <==> ValueRaises(field, value, unit, code)
  {
    CodesOfConcat(ValueIssues(field, value), UnitIssues(field, unit));
    KindCodesRaised(KindOf(field), field.InstalledCapacityMw?, value, code);
    NoCodesIffNone([]);
    OneCode(Issue(UnitUnverified, Review));
    hide CodesOf, KindOf, ExpectedUnit, KindRaises, KindIssues;
  }

  lemma TwoCandidates(observations: seq<Observation>, i: nat)
    requires i < |observations| && observations[i].missing.None?
    ensures |Candidates(observations, observations[i].field)| > 1 <==> Contradicted(observations, i)
  {
    var o := observations[i];
    var all, own := Candidates(observations, o.field), (o.value, o.unit);
    assert own in all;
    if Contradicted(observations, i) {
      var j :| 0 <= j < |observations| && observations[j].missing.None? && observations[j].field == o.field
        && (observations[j].value != o.value || observations[j].unit != o.unit);
      var other := (observations[j].value, observations[j].unit);
      assert other in all && other != own;
      assert |{own, other}| == 2 && {own, other} <= all;
      Fewer({own, other}, all);
    } else {
      assert all == {own};
    }
  }

  lemma Fewer<T>(a: set<T>, b: set<T>)
    requires a <= b
    ensures |a| <= |b|
  {
    assert b == a + (b - a);
  }

  lemma SoftCodes(o: Observation, conflict: bool, threshold: real, code: Code)
    ensures
      var soft := ConfidenceIssues(o.confidence, threshold) + (if conflict then [Issue(CandidateConflict, Review)] else [])
        + [Issue(SemanticSupportPending, Review)];
      code in CodesOf(soft) <==>
        || (code.ConfidenceUnknown? && o.confidence.None?)
        || (code.ConfidenceBelowThreshold? && o.confidence.Some? && o.confidence.value < threshold)
        || (code.CandidateConflict? && conflict)
        || code.SemanticSupportPending?
  {
    var a := ConfidenceIssues(o.confidence, threshold);
    var b, c := if conflict then [Issue(CandidateConflict, Review)] else [], [Issue(SemanticSupportPending, Review)];
    CodesOfConcat(a + b, c);
    CodesOfConcat(a, b);
    NoCodesIffNone([]);
    OneCode(Issue(ConfidenceUnknown, Review));
    OneCode(Issue(ConfidenceBelowThreshold, Review));
    OneCode(Issue(CandidateConflict, Review));
    OneCode(Issue(SemanticSupportPending, Review));
    hide CodesOf;
  }

  lemma ValuedIssuesAreDeserved(parsed: ParsedDocument, observations: seq<Observation>, threshold: real, i: nat, code: Code)
    requires i < |observations| && observations[i].missing.None?
    ensures code in CodesOf(CheckOf(parsed, observations, threshold, i).issues) <==> Deserves(parsed, observations, threshold, i, code)
  {
    var o := observations[i];
    var conflict := |Candidates(observations, o.field)| > 1;
    TwoCandidates(observations, i);
    var evidence := AllEvidenceIssues(parsed, o.evidence);
    var value := ValueIssues(o.field, o.value) + UnitIssues(o.field, o.unit);
    var soft := ConfidenceIssues(o.confidence, threshold) + (if conflict then [Issue(CandidateConflict, Review)] else [])
      + [Issue(SemanticSupportPending, Review)];
    assert CheckOf(parsed, observations, threshold, i).issues == evidence + (value + soft);
    hide CodesOf, AllEvidenceIssues, ValueIssues, UnitIssues, ConfidenceIssues, EvidenceRaises, ValueRaises, Candidates, Contradicted;
    EvidenceCodesRaised(parsed, o.evidence, code);
    ValueCodesRaised(o.field, o.value, o.unit, code);
    SoftCodes(o, conflict, threshold, code);
    CodesOfConcat(evidence, value + soft);
    CodesOfConcat(value, soft);
    hide CheckOf;
  }

  /** The validator raises exactly the issues an observation deserves, among the others of its extraction. */
  lemma IssuesAreDeserved(parsed: ParsedDocument, observations: seq<Observation>, threshold: real, i: nat, code: Code)
    requires i < |observations|
    ensures code in CodesOf(CheckOf(parsed, observations, threshold, i).issues) <==> Deserves(parsed, observations, threshold, i, code)
  {
    var o := observations[i];
    if o.missing.Some? {
      var rest := if o.missing.value.Ambiguous? then [Issue(AmbiguousAbstention, Review)] else [];
      EvidenceCodesRaised(parsed, o.evidence, code);
      CodesOfConcat(AllEvidenceIssues(parsed, o.evidence), rest);
      OneCode(Issue(AmbiguousAbstention, Review));
      NoCodesIffNone([]);
      hide CodesOf, AllEvidenceIssues, EvidenceRaises;
    } else {
      ValuedIssuesAreDeserved(parsed, observations, threshold, i, code);
    }
  }

  /** Codes that reject a candidate mechanically; all others leave it to a reviewer. */
  predicate Mechanical(code: Code) {
    || code.EvidenceVersionInvalid? || code.EvidencePageInvalid? || code.EvidenceQuoteMissing? || code.EvidenceOffsetsInvalid?
    || code.FieldTypeInvalid? || code.NumericRangeInvalid? || code.DateCalendarInvalid?
  }

  predicate Graded(issues: seq<Issue>) {
    forall k :: 0 <= k < |issues| ==> (issues[k].severity.Error? <==> Mechanical(issues[k].code))
  }

  lemma {:induction false} EvidenceGraded(parsed: ParsedDocument, evidence: seq<Evidence>)
    ensures Graded(AllEvidenceIssues(parsed, evidence))
  {
    if evidence != [] { EvidenceGraded(parsed, evidence[..|evidence| - 1]); }
    hide Blank, Occurs, Slice;
  }

  lemma GradedConcat(a: seq<Issue>, b: seq<Issue>)
    requires Graded(a) && Graded(b)
    ensures Graded(a + b)
  {
    hide Mechanical;
  }

  lemma ValueGraded(field: Field, value: Json, unit: Option<string>)
    ensures Graded(ValueIssues(field, value) + UnitIssues(field, unit))
  {
    hide KindOf, ExpectedUnit, Blank, DateShaped, ParseDate;
    assert Graded(ValueIssues(field, value)) && Graded(UnitIssues(field, unit));
  }

  lemma ChecksGraded(parsed: ParsedDocument, observations: seq<Observation>, threshold: real, i: nat)
    requires i < |observations|
    ensures Graded(CheckOf(parsed, observations, threshold, i).issues)
  {
    var o := observations[i];
    var conflict := |Candidates(observations, o.field)| > 1;
    EvidenceGraded(parsed, o.evidence);
    ValueGraded(o.field, o.value, o.unit);
    hide AllEvidenceIssues, Candidates, ValueIssues, UnitIssues;
    var value := ValueIssues(o.field, o.value) + UnitIssues(o.field, o.unit);
    var soft := ConfidenceIssues(o.confidence, threshold) + (if conflict then [Issue(CandidateConflict, Review)] else [])
      + [Issue(SemanticSupportPending, Review)];
    assert Graded(soft);
    if o.missing.None? {
      GradedConcat(value, soft);
      GradedConcat(AllEvidenceIssues(parsed, o.evidence), value + soft);
      assert CheckOf(parsed, observations, threshold, i).issues == AllEvidenceIssues(parsed, o.evidence) + (value + soft);
    }
  }

  /** A check is rejected iff a mechanical issue is deserved, needs review iff only others are, and is missing iff none is. */
  lemma StatusIsDeserved(parsed: ParsedDocument, observations: seq<Observation>, threshold: real, i: nat)
    requires i < |observations|
    ensures var status := CheckOf(parsed, observations, threshold, i).status;
      && (status.RejectedCheck? <==> exists c :: Mechanical(c) && Deserves(parsed, observations, threshold, i, c))
      && (status.MissingValue? <==> forall c :: !Deserves(parsed, observations, threshold, i, c))
  {
    var issues := CheckOf(parsed, observations, threshold, i).issues;
    ChecksGraded(parsed, observations, threshold, i);
    forall c
      ensures c in CodesOf(issues) <==> Deserves(parsed, observations, threshold, i, c)
    {
      IssuesAreDeserved(parsed, observations, threshold, i, c);
    }
    NoCodesIffNone(issues);
    hide Deserves, ObservationIssues, Mechanical, Candidates;
    if exists c :: Mechanical(c) && c in CodesOf(issues) {
      var c :| Mechanical(c) && c in CodesOf(issues);
      var k :| 0 <= k < |issues| && issues[k].code == c;
      assert issues[k].severity.Error?;
    }
    if HasError(issues) {
      var k :| 0 <= k < |issues| && issues[k].severity.Error?;
      assert Mechanical(issues[k].code) && issues[k].code in CodesOf(issues);
    }
  }
}
