/**
 The tables behind review and what each transaction does to them. Every function here describes one
 whole transaction: it either commits all of its rows or changes nothing.
 */
module Store {
  import opened Wrappers
  import opened Fields
  import opened Text
  import opened Calendar
  import opened Domain
  import opened Validation

  datatype Scope = Scope(registry: Registry, project: string, field: Field)

  datatype ParsedRow = ParsedRow(document: ParsedDocument, configuration: string)

  datatype ReportRow = ReportRow(
    extractionRun: Id, extraction: Extraction, parsed: Id, registry: Registry, project: string, report: Report)

  datatype CandidateRow = CandidateRow(
    run: Id, index: nat, field: Field, value: Json, unit: Option<string>, status: CheckStatus, issues: seq<Issue>)

  datatype DecisionRow = DecisionRow(
    candidate: Id, reviewer: string, reason: string, status: ReviewStatus, before: Json, after: Json, createdAt: Time)

  datatype FactRow = FactRow(decision: Id, scope: Scope, value: Json, unit: Option<string>)

  datatype SourceLink = SourceLink(version: Id, parsed: Id, run: Id, createdAt: Time)

  datatype Db = Db(
    sources: map<Id, SourceDocument>,
    versions: map<Id, DocumentVersion>,
    parsed: map<Id, ParsedRow>,
    runs: map<Id, PipelineRun>,
    reports: map<Id, ReportRow>,
    candidates: map<Id, CandidateRow>,
    evidence: map<(Id, nat), Evidence>,
    decisions: map<Id, DecisionRow>,
    requests: map<Id, ReviewRequest>,
    facts: map<Id, FactRow>,
    links: map<Id, SourceLink>,
    heads: map<Scope, Id>)

  function Empty(): Db {
    Db(map[], map[], map[], map[], map[], map[], map[], map[], map[], map[], map[], map[])
  }

  // ----- Documents

  predicate CanAddVersion(db: Db, id: Id, row: DocumentVersion) {
    && id !in db.versions && row.source in db.sources
    && forall v :: v in db.versions ==> !(db.versions[v].source == row.source && db.versions[v].sha256 == row.sha256)
  }

  predicate CanAddParsed(db: Db, row: ParsedRow) {
    && row.document.Valid() && row.document.id !in db.parsed && row.document.version in db.versions
    && forall p :: p in db.parsed ==>
        !(db.parsed[p].document.version == row.document.version && db.parsed[p].configuration == row.configuration)
  }

  function WithSource(db: Db, id: Id, source: SourceDocument): Db {
    if id in db.sources then db else db.(sources := db.sources[id := source])
  }

  function WithVersion(db: Db, id: Id, version: DocumentVersion): Db {
    if CanAddVersion(db, id, version) then db.(versions := db.versions[id := version]) else db
  }

  function WithParsed(db: Db, row: ParsedRow): Db {
    if CanAddParsed(db, row) then db.(parsed := db.parsed[row.document.id := row]) else db
  }

  /** A run row written by another component. */
  function WithRun(db: Db, run: PipelineRun): Db {
    if run.id in db.runs then db else db.(runs := db.runs[run.id := run])
  }

  // ----- Importing a validation

  datatype Import = Import(report: Report, run: PipelineRun, extraction: Extraction, extractionRun: PipelineRun) {
    predicate Valid() { report.Valid() && run.Valid() && extraction.Valid() && extractionRun.Valid() }
  }

  datatype ImportError =
    | ExtractionMismatch | ProvenanceMismatch
    | EvidenceVersionMismatch | EvidenceNotGrounded | EvidenceOffsetsMismatch
    | RunRowMissing                        // a stored report without the run rows it is compared with
    | RunConflict | ExtractionRunConflict | ConstraintViolated

  /** The four artefacts describe one extraction and its validation. */
  predicate Coherent(a: Import) {
    && a.extraction.run == Some(a.report.extractionRun)
    && a.extractionRun.id == a.report.extractionRun
    && (a.extractionRun.stage.BaselineExtracted? || a.extractionRun.stage.LlmExtracted?)
    && a.extractionRun.status.Succeeded?
    && a.extractionRun.inputHash == a.run.inputHash
    && a.extraction.parsed == a.report.parsed
    && a.extraction.version == a.report.version
    && a.extraction.registry == a.report.registry && a.extraction.project == a.report.project
    && |a.extraction.observations| == |a.report.checks|
    && forall i :: 0 <= i < |a.report.checks| ==> a.extraction.observations[i].Same(a.report.checks[i].observation)
  }

  /** They belong to a stored document of the same project, validated by a succeeded run over its text. */
  predicate Identified(db: Db, a: Import) {
    && a.report.parsed in db.parsed
    && a.report.version in db.versions
    && db.versions[a.report.version].source in db.sources
    && var document := db.parsed[a.report.parsed].document;
    && var source := db.sources[db.versions[a.report.version].source];
    && document.version == a.report.version
    && source.registry == a.report.registry && source.project == a.report.project
    && a.run.id == a.report.run && a.run.status.Succeeded? && a.run.stage.QualityValidated?
    && a.run.inputHash == OfDocument(document)
  }

  predicate Quoted(document: ParsedDocument, e: Evidence) {
    1 <= e.page <= |document.pages| && !Blank(e.quote) && Occurs(document.pages[e.page - 1], e.quote)
  }

  predicate WellPlaced(document: ParsedDocument, e: Evidence)
    requires 1 <= e.page <= |document.pages|
  {
    e.start.Some? && e.end.Some? ==>
      && e.end.value <= |document.pages[e.page - 1]|
      && Slice(document.pages[e.page - 1], e.start.value, e.end.value) == e.quote
  }

  /** Rejected checks keep a bad quote for audit, but every reference must point at this version. */
  predicate EvidenceAcceptable(document: ParsedDocument, version: Id, status: CheckStatus, e: Evidence) {
    e.version == version && (!status.RejectedCheck? ==> Quoted(document, e) && WellPlaced(document, e))
  }

  predicate CheckAcceptable(document: ParsedDocument, version: Id, check: Check) {
    forall j :: 0 <= j < |check.observation.evidence| ==>
      EvidenceAcceptable(document, version, check.status, check.observation.evidence[j])
  }

  function EvidenceFault(document: ParsedDocument, version: Id, status: CheckStatus, e: Evidence): Option<ImportError> {
    if e.version != version then Some(EvidenceVersionMismatch)
    else if status.RejectedCheck? then None
    else if !Quoted(document, e) then Some(EvidenceNotGrounded)
    else if !WellPlaced(document, e) then Some(EvidenceOffsetsMismatch)
    else None
  }

  /** The first fault in the references of one check. */
  function CheckFault(document: ParsedDocument, version: Id, status: CheckStatus, refs: seq<Evidence>): Option<ImportError> {
    if refs == [] then None
    else
      var earlier := CheckFault(document, version, status, refs[..|refs| - 1]);
      if earlier.Some? then earlier else EvidenceFault(document, version, status, refs[|refs| - 1])
  }

  /** The first fault in a report. */
  function ChecksFault(document: ParsedDocument, version: Id, checks: seq<Check>): Option<ImportError> {
    if checks == [] then None
    else
      var earlier, last := ChecksFault(document, version, checks[..|checks| - 1]), checks[|checks| - 1];
      if earlier.Some? then earlier else CheckFault(document, version, last.status, last.observation.evidence)
  }

  lemma {:induction false} CheckFaultIff(document: ParsedDocument, version: Id, status: CheckStatus, refs: seq<Evidence>)
    ensures CheckFault(document, version, status, refs).None? <==>
      forall j :: 0 <= j < |refs| ==> EvidenceAcceptable(document, version, status, refs[j])
  {
    hide Quoted, WellPlaced;
    if refs != [] {
      var front := refs[..|refs| - 1];
      CheckFaultIff(document, version, status, front);
      assert forall j :: 0 <= j < |front| ==> front[j] == refs[j];
    }
  }

  /** A report has no fault exactly if all its evidence is acceptable. */
  lemma {:induction false} ChecksFaultIff(document: ParsedDocument, version: Id, checks: seq<Check>)
    ensures ChecksFault(document, version, checks).None? <==>
      forall i :: 0 <= i < |checks| ==> CheckAcceptable(document, version, checks[i])
  {
    if checks != [] {
      var front, last := checks[..|checks| - 1], checks[|checks| - 1];
      ChecksFaultIff(document, version, front);
      CheckFaultIff(document, version, last.status, last.observation.evidence);
      hide EvidenceAcceptable, CheckFault;
      assert forall i :: 0 <= i < |front| ==> front[i] == checks[i];
    }
  }

  /** A fault once found stays the first one. */
  lemma {:induction false} CheckFaultStays(document: ParsedDocument, version: Id, status: CheckStatus, refs: seq<Evidence>, j: nat)
    requires j <= |refs| && CheckFault(document, version, status, refs[..j]).Some?
    ensures CheckFault(document, version, status, refs) == CheckFault(document, version, status, refs[..j])
    decreases |refs|
  {
    if j < |refs| {
      var front := refs[..|refs| - 1];
      assert front[..j] == refs[..j];
      CheckFaultStays(document, version, status, front, j);
    } else {
      assert refs[..j] == refs;
    }
  }

  lemma {:induction false} ChecksFaultStays(document: ParsedDocument, version: Id, checks: seq<Check>, i: nat)
    requires i <= |checks| && ChecksFault(document, version, checks[..i]).Some?
    ensures ChecksFault(document, version, checks) == ChecksFault(document, version, checks[..i])
    decreases |checks|
  {
    if i < |checks| {
      var front := checks[..|checks| - 1];
      assert front[..i] == checks[..i];
      ChecksFaultStays(document, version, front, i);
    } else {
      assert checks[..i] == checks;
    }
  }

  /** A run identifier without a report: nothing is stored if either run row clashes. */
  function NewImportOutcome(db: Db, a: Import): Result<bool, ImportError> {
    if a.extractionRun.id in db.runs && db.runs[a.extractionRun.id] != a.extractionRun then Err(ExtractionRunConflict)
    else if a.run.id in db.runs || a.run.id == a.extractionRun.id then Err(ConstraintViolated)
    else Ok(false)
  }

  /** Refusals that do not depend on earlier imports. */
  function ImportRefusal(db: Db, a: Import): Option<ImportError> {
    if !Coherent(a) then Some(ExtractionMismatch)
    else if !Identified(db, a) then Some(ProvenanceMismatch)
    else ChecksFault(db.parsed[a.report.parsed].document, a.report.version, a.report.checks)
  }

  /** All four stored payloads are the ones presented now. */
  predicate SamePayloads(db: Db, a: Import)
    requires a.run.id in db.reports && a.run.id in db.runs && a.extractionRun.id in db.runs
  {
    && db.reports[a.run.id].report == a.report && db.reports[a.run.id].extraction == a.extraction
    && db.runs[a.run.id] == a.run && db.runs[a.extractionRun.id] == a.extractionRun
  }

  /** What `import_validation` returns: true for exact reuse, false for a new import. */
  function ImportOutcome(db: Db, a: Import): Result<bool, ImportError> {
    if ImportRefusal(db, a).Some? then Err(ImportRefusal(db, a).value)
    else if a.run.id !in db.reports then NewImportOutcome(db, a)
    else if a.run.id !in db.runs || a.extractionRun.id !in db.runs then Err(RunRowMissing)
    else if SamePayloads(db, a) then Ok(true)
    else Err(RunConflict)
  }

  function RowOf(run: Id, check: Check): CandidateRow {
    CandidateRow(run, check.index, check.observation.field, check.observation.value, check.observation.unit,
                 check.status, check.issues)
  }

  function CandidateRows(run: Id, checks: seq<Check>): map<Id, CandidateRow> {
    map i | 0 <= i < |checks| :: OfCandidate(run, i) := RowOf(run, checks[i])
  }

  function EvidenceRows(run: Id, checks: seq<Check>): map<(Id, nat), Evidence> {
    map i: nat, j: nat | i < |checks| && j < |checks[i].observation.evidence| ::
      (OfCandidate(run, i), j) := checks[i].observation.evidence[j]
  }

  function ReportRowOf(a: Import): ReportRow {
    ReportRow(a.report.extractionRun, a.extraction, a.report.parsed, a.report.registry, a.report.project, a.report)
  }

  /** All rows of a new import. */
  function Imported(db: Db, a: Import): Db {
    db.(runs := db.runs[a.extractionRun.id := a.extractionRun][a.run.id := a.run],
        reports := db.reports[a.run.id := ReportRowOf(a)],
        candidates := db.candidates + CandidateRows(a.run.id, a.report.checks),
        evidence := db.evidence + EvidenceRows(a.run.id, a.report.checks))
  }

  function ImportTables(db: Db, a: Import): Db {
    if ImportOutcome(db, a) == Ok(false) then Imported(db, a) else db
  }

  // ----- Deciding

  datatype BlockCode =
    | DecisionIdConflict | CandidateNotFound | StaleCurrentFact | ReplacementFieldMismatch
    | ParsedDocumentAbsent | DateOrderReversed
    | Failing(code: Code)

  datatype Outcome =
    | Reused(fact: Option<Id>)
    | Recorded(status: ReviewStatus, fact: Option<Id>)
    | Blocked(codes: set<BlockCode>)
    | InvalidRequest                       // the request model refuses the payload
    | Broken                               // any other exception; the transaction is rolled back

  function CurrentFact(db: Db, scope: Scope): Option<Id> {
    if scope in db.heads then Some(db.heads[scope]) else None
  }

  function ScopeOf(db: Db, candidate: Id): Scope
    requires candidate in db.candidates && db.candidates[candidate].run in db.reports
  {
    var row := db.reports[db.candidates[candidate].run];
    Scope(row.registry, row.project, db.candidates[candidate].field)
  }

  predicate PeriodField(field: Field) { field.CreditingPeriodStart? || field.CreditingPeriodEnd? }

  function Counterpart(field: Field): Field {
    if field.CreditingPeriodStart? then CreditingPeriodEnd else CreditingPeriodStart
  }

  datatype PeriodCheck = InOrder | Reversed | Unreadable

  function Order(start: Json, end: Json): PeriodCheck {
    if !start.JStr? || !end.JStr? || ParseDate(start.s).None? || ParseDate(end.s).None? then Unreadable
    else if DateLess(ParseDate(end.s).value, ParseDate(start.s).value) then Reversed
    else InOrder
  }

  function PeriodGuard(db: Db, scope: Scope, value: Json): PeriodCheck {
    if !PeriodField(scope.field) then InOrder
    else
      var other := CurrentFact(db, scope.(field := Counterpart(scope.field)));
      if other.None? || other.value !in db.facts then InOrder
      else if scope.field.CreditingPeriodStart? then Order(value, db.facts[other.value].value)
      else Order(db.facts[other.value].value, value)
  }

  const REVIEW_THRESHOLD := 0.8

  /** The checks on an approval, in the order `decide` makes them. */
  function ApprovalOutcome(db: Db, r: ReviewRequest): Outcome
    requires r.Valid() && r.status.Approved?
    requires r.candidate in db.candidates && db.candidates[r.candidate].run in db.reports
  {
    var row := db.reports[db.candidates[r.candidate].run];
    var after := r.after.value;
    var revised := row.extraction.(observations := [after]);
    if after.field != db.candidates[r.candidate].field then Blocked({ReplacementFieldMismatch})
    else if row.report.parsed !in db.parsed then Blocked({ParsedDocumentAbsent})
    else
      var document := db.parsed[row.report.parsed].document;
      if !Accepted(document, revised, REVIEW_THRESHOLD) then Broken
      else
        var codes := CodesOf(CheckOf(document, [after], REVIEW_THRESHOLD, 0).issues) - SOFT_CODES;
        if codes != {} then Blocked(set c | c in codes :: Failing(c))
        else match PeriodGuard(db, ScopeOf(db, r.candidate), after.value)
          case Reversed => Blocked({DateOrderReversed})
          case Unreadable => Broken
          case InOrder => Recorded(Approved, Some(OfDecision(r.decision)))
  }

  function DecideOutcome(db: Db, r: ReviewRequest): Outcome {
    if !r.Valid() then InvalidRequest
    else if r.decision in db.requests then
      if db.requests[r.decision] != r then Blocked({DecisionIdConflict})
      else Reused(if OfDecision(r.decision) in db.facts then Some(OfDecision(r.decision)) else None)
    else if r.candidate !in db.candidates then Blocked({CandidateNotFound})
    else if db.candidates[r.candidate].run !in db.reports then Broken
    else if CurrentFact(db, ScopeOf(db, r.candidate)) != r.expectedCurrent then Blocked({StaleCurrentFact})
    else if r.status.Approved? then ApprovalOutcome(db, r)
    else Recorded(r.status, None)
  }

  function ValueAfter(r: ReviewRequest): Json { if r.after.Some? then r.after.value.value else JNull }

  function ValueBefore(db: Db, current: Option<Id>): Json {
    if current.Some? && current.value in db.facts then db.facts[current.value].value else JNull
  }

  function DecisionRowOf(db: Db, r: ReviewRequest, now: Time): DecisionRow {
    DecisionRow(r.candidate, r.reviewer, r.reason, r.status, ValueBefore(db, r.expectedCurrent), ValueAfter(r), now)
  }

  function LinkOf(db: Db, r: ReviewRequest, now: Time): SourceLink
    requires r.candidate in db.candidates && db.candidates[r.candidate].run in db.reports
  {
    var run := db.candidates[r.candidate].run;
    SourceLink(db.reports[run].extraction.version, db.reports[run].report.parsed, run, now)
  }

  /** The rows a recorded decision adds; an approval also moves the head of its scope. */
  function Commit(db: Db, r: ReviewRequest, now: Time): Db
    requires r.candidate in db.candidates && db.candidates[r.candidate].run in db.reports
    requires r.status.Approved? ==> r.after.Some?
  {
    var recorded := db.(decisions := db.decisions[r.decision := DecisionRowOf(db, r, now)],
                        requests := db.requests[r.decision := r]);
    if !r.status.Approved? then recorded
    else
      var fact, scope := OfDecision(r.decision), ScopeOf(db, r.candidate);
      recorded.(facts := db.facts[fact := FactRow(r.decision, scope, ValueAfter(r), r.after.value.unit)],
                links := db.links[fact := LinkOf(db, r, now)],
                heads := db.heads[scope := fact])
  }

  function DecideTables(db: Db, r: ReviewRequest, now: Time): Db {
    if DecideOutcome(db, r).Recorded? then Commit(db, r, now) else db
  }
}
