/**
 The validated values that travel through the pipeline. A `Valid` predicate states what the
 pydantic model of the same name enforces when it is built.

 Identities: `uuid5` is an injective constructor, `Raw` any other UUID. SHA-256 of a document's
 JSON is likewise a constructor. Timestamps are microseconds.
 */
module Domain {
  import opened Wrappers
  import opened Fields
  import opened Text
  import opened Calendar

  datatype Registry = Acr | GoldStandard | Verra

  datatype Id =
    | Raw(n: nat)
    | OfDecision(decision: Id)
    | OfCandidate(run: Id, index: nat)

  type Time = int

  /** A decimal number coef * 10^exp. */
  datatype Dec = Dec(coef: int, exp: int)

  /** JSON scalars; `json.dumps` keeps 1, 1.0 and true apart, so it is injective on them. */
  datatype Json = JNull | JBool(b: bool) | JInt(n: int) | JFloat(d: Dec) | JStr(s: string) {
    predicate Numeric() { JBool? || JInt? || JFloat? }

    function AsDec(): Dec
      requires Numeric()
    {
      match this
      case JBool(b) => Dec(if b then 1 else 0, 0)
      case JInt(n) => Dec(n, 0)
      case JFloat(d) => d
    }
  }

  function Min(a: int, b: int): int { if a <= b then a else b }

  /** The integer value of `d` in units of 10^unit. */
  function Scaled(d: Dec, unit: int): int
    requires unit <= d.exp
  {
    d.coef * Pow10(d.exp - unit)
  }

  /** Python's `==` on scalars, under which 1 == 1.0 == True. */
  predicate PyEqual(a: Json, b: Json) {
    if a.Numeric() && b.Numeric() then
      var unit := Min(a.AsDec().exp, b.AsDec().exp);
      Scaled(a.AsDec(), unit) == Scaled(b.AsDec(), unit)
    else a == b
  }

  datatype Evidence = Evidence(version: Id, page: int, quote: string, start: Option<nat>, end: Option<nat>) {
    predicate Valid() {
      && 1 <= page && quote != ""
      && (end.Some? ==> 1 <= end.value)
      && (start.None? <==> end.None?)
      && (start.Some? && end.Some? ==> start.value < end.value)
    }
  }

  datatype Missing = NotFound | UnsupportedByBaseline | Ambiguous

  /** A candidate value with its evidence, or an explicit abstention. `JNull` is Python's None. */
  datatype Observation = Observation(
    field: Field,
    raw: Option<string>,
    value: Json,
    unit: Option<string>,
    confidence: Option<real>,
    evidence: seq<Evidence>,
    missing: Option<Missing>,
    notes: seq<string>
  ) {
    predicate Valid() {
      && (raw.Some? ==> raw.value != "")
      && (unit.Some? ==> unit.value != "")
      && (confidence.Some? ==> 0.0 <= confidence.value <= 1.0)
      && (forall i :: 0 <= i < |evidence| ==> evidence[i].Valid())
      && (missing.None? ==> raw.Some? && value != JNull && evidence != [])
      && (missing.Some? ==> raw.None? && value == JNull)
    }

    /** Python's `==` on observations. */
    predicate Same(other: Observation) {
      PyEqual(value, other.value) && this.(value := other.value) == other
    }
  }

  datatype SchemaVersion = Schema100 | Schema110

  datatype Extraction = Extraction(
    project: string,
    registry: Registry,
    version: Id,
    parsed: Id,
    extractorName: string,
    extractorVersion: string,
    schema: SchemaVersion,
    run: Option<Id>,
    createdAt: Time,
    observations: seq<Observation>
  ) {
    predicate Valid() {
      && project != "" && extractorName != "" && extractorVersion != "" && observations != []
      && (schema.Schema110? ==> run.Some?)
      && (forall i :: 0 <= i < |observations| ==> observations[i].Valid() && CitesOnly(observations[i], version))
    }
  }

  predicate CitesOnly(observation: Observation, version: Id) {
    forall i :: 0 <= i < |observation.evidence| ==> observation.evidence[i].version == version
  }

  /** Page `n` (one-based) is `pages[n - 1]`; page offsets always span the whole page text. */
  datatype ParsedDocument = ParsedDocument(
    id: Id, version: Id, parserName: string, parserVersion: string, pages: seq<string>, createdAt: Time)
  {
    predicate Valid() { parserName != "" && parserVersion != "" && pages != [] }
  }

  datatype SourceDocument = SourceDocument(registry: Registry, project: string, url: string)

  datatype DocumentVersion = DocumentVersion(source: Id, sha256: string)

  datatype Severity = Error | Review

  /** Issue codes; a stored report may also carry a code of some other validator version. */
  datatype Code =
    | EvidenceVersionInvalid | EvidencePageInvalid | EvidenceQuoteMissing
    | EvidenceOffsetsMissing | EvidenceOffsetsInvalid
    | AmbiguousAbstention | FieldContractPending | FieldTypeInvalid
    | NumericRangeInvalid | NegativeValueRequiresDomainRule
    | DateFormatUnresolved | DateCalendarInvalid | UnitUnverified
    | ConfidenceUnknown | ConfidenceBelowThreshold | CandidateConflict | SemanticSupportPending
    | OtherCode(name: string)

  datatype Issue = Issue(code: Code, severity: Severity)

  datatype CheckStatus = MissingValue | RejectedCheck | NeedsReview

  predicate HasError(issues: seq<Issue>) {
    exists i :: 0 <= i < |issues| && issues[i].severity.Error?
  }

  datatype Check = Check(index: nat, observation: Observation, status: CheckStatus, issues: seq<Issue>) {
    predicate Valid() {
      && observation.Valid()
      && (status.RejectedCheck? <==> HasError(issues))
      && (status.MissingValue? ==> observation.missing.Some?)
    }
  }

  datatype Report = Report(
    run: Id,
    extractionRun: Id,
    parsed: Id,
    version: Id,
    project: string,
    registry: Registry,
    checks: seq<Check>
  ) {
    predicate Valid() {
      && project != "" && checks != []
      && (forall i :: 0 <= i < |checks| ==> checks[i].Valid() && checks[i].index == i)
    }
  }

  datatype Stage = BaselineExtracted | LlmExtracted | QualityValidated | OtherStage(name: string)

  datatype RunStatus = Running | Succeeded | Failed | Skipped

  /** USD per million tokens. */
  datatype CostRates = CostRates(input: real, output: real) {
    predicate Valid() { 0.0 <= input && 0.0 <= output }
  }

  /** What distinguishes one extraction set-up from another; `pages` stands for the sorted page list. */
  datatype Configuration = Configuration(
    provider: string, model: string, fields: seq<Field>, pages: set<int>, maxOutputTokens: nat,
    rates: Option<CostRates>)

  datatype Hash =
    | OfDocument(document: ParsedDocument)
    | OfConfiguration(configuration: Configuration)
    | OfText(text: string)

  datatype PipelineRun = PipelineRun(
    id: Id, stage: Stage, status: RunStatus, inputHash: Hash, configHash: Hash,
    startedAt: Time, finishedAt: Option<Time>, errorCode: Option<string>, errorMessage: Option<string>)
  {
    predicate Valid() {
      && (finishedAt.Some? ==> startedAt <= finishedAt.value)
      && (status.Running? <==> finishedAt.None?)
      && (if status.Failed? then errorCode.Some? && errorCode.value != "" && errorMessage.Some? && errorMessage.value != ""
          else errorCode.None? && errorMessage.None?)
    }
  }

  datatype ReviewStatus = Approved | Rejected | Unresolved

  datatype ReviewRequest = ReviewRequest(
    decision: Id,
    candidate: Id,
    reviewer: string,
    reason: string,
    status: ReviewStatus,
    expectedCurrent: Option<Id>,
    after: Option<Observation>,
    authorityConfirmed: bool
  ) {
    predicate Valid() {
      && !Blank(reviewer) && !Blank(reason)
      && (after.Some? ==> after.value.Valid())
      && (if status.Approved? then authorityConfirmed && after.Some? && after.value.missing.None?
          else after.None? && !authorityConfirmed)
    }
  }

  /** A float equals an integer if it denotes it; a truth value equals 1 or 0. */
  lemma NumbersCompareByValue(n: int, d: Dec, b: bool)
    ensures PyEqual(JInt(n), JFloat(d)) <==> (if d.exp >= 0 then n == d.coef * Pow10(d.exp) else n * Pow10(-d.exp) == d.coef)
    ensures PyEqual(JBool(b), JInt(n)) <==> n == (if b then 1 else 0)
    ensures forall s: string, x: Json :: PyEqual(JStr(s), x) <==> x == JStr(s)
    ensures forall x: Json :: PyEqual(JNull, x) <==> x == JNull
  {
    assert Pow10(0) == 1;
  }
}
