/**
 What the store promises about single imports and decisions, said in the terms of the rows themselves: when an
 import is accepted and what it leaves behind, why a request is refused, what a recorded decision writes.
 */
module StoreLaws {
  import opened Wrappers
  import opened Text
  import opened Domain
  import opened Validation
  import opened Store
  import opened StoreInvariant
  import opened StoreSteps
  import opened StoreRuns

  // ----- Stored reports

  /** Candidate and evidence rows are the checks of the stored reports and their references, field by field. */
  lemma CandidatesAreChecks(events: seq<Event>, run: Id, i: nat)
    requires run in Reached(events).reports && i < |Reached(events).reports[run].report.checks|
    ensures var db, check := Reached(events), Reached(events).reports[run].report.checks[i];
      && OfCandidate(run, i) in db.candidates
      && db.candidates[OfCandidate(run, i)] ==
          CandidateRow(run, i, check.observation.field, check.observation.value, check.observation.unit, check.status, check.issues)
      && (forall j: nat :: (OfCandidate(run, i), j) in db.evidence <==> j < |check.observation.evidence|)
      && (forall j: nat :: j < |check.observation.evidence| ==> db.evidence[(OfCandidate(run, i), j)] == check.observation.evidence[j])
  {
    hide Run, RunHistory, DocumentsOk, ReportsOk, DecisionsOk, FactsOk, HeadsOk, ChainsOk, PeriodsOk;
    ReachedSides(events);
    var db := Reached(events);
    assert CandidateOk(db, OfCandidate(run, i));
    forall j: nat
      ensures (OfCandidate(run, i), j) in db.evidence <==> j < |Refs(db, run, i)|
      ensures j < |Refs(db, run, i)| ==> db.evidence[(OfCandidate(run, i), j)] == Refs(db, run, i)[j]
    {
      if (OfCandidate(run, i), j) in db.evidence { assert EvidenceRowOk(db, (OfCandidate(run, i), j)); }
    }
  }

  /** No candidate stands for anything but a check of a stored report. */
  lemma EveryCandidateIsACheck(events: seq<Event>, c: Id)
    requires c in Reached(events).candidates
    ensures var db := Reached(events);
      c.OfCandidate? && c.run in db.reports && c.index < |db.reports[c.run].report.checks|
  {
    hide Run, RunHistory, DocumentsOk, ReportsOk, EvidenceOk, DecisionsOk, FactsOk, HeadsOk, ChainsOk, PeriodsOk;
    ReachedSides(events);
    assert CandidateOk(Reached(events), c);
  }

  /** Every stored report is of a succeeded validation of the stored document it names, and agrees with its extraction. */
  lemma ReportsAreProven(events: seq<Event>, run: Id)
    requires run in Reached(events).reports
    ensures var db, row := Reached(events), Reached(events).reports[run];
      && RunsOk(db, run)
      && row.report.run == run && row.report.parsed == row.parsed == row.extraction.parsed
      && row.report.version == row.extraction.version == db.parsed[row.parsed].document.version
      && row.report.registry == row.extraction.registry == row.registry
      && row.report.project == row.extraction.project == row.project
      && row.extraction.run == Some(row.extractionRun) && row.report.extractionRun == row.extractionRun
  {
    hide Run, RunHistory, DocumentsOk, CandidatesOk, EvidenceOk, DecisionsOk, FactsOk, HeadsOk, ChainsOk, PeriodsOk;
    ReachedSides(events);
    assert ReportOk(Reached(events), run);
  }

  /** No document version is stored twice for its source, no parsed document twice for its configuration. */
  lemma DocumentsAreUnique(events: seq<Event>)
    ensures var db := Reached(events);
      && (forall v, w :: v in db.versions && w in db.versions && db.versions[v] == db.versions[w] ==> v == w)
      && (forall p, q :: p in db.parsed && q in db.parsed && p != q ==>
            db.parsed[p].configuration != db.parsed[q].configuration
            || db.parsed[p].document.version != db.parsed[q].document.version)
  {
    hide Run, RunHistory, ReportsOk, CandidatesOk, EvidenceOk, DecisionsOk, FactsOk, HeadsOk, ChainsOk, PeriodsOk;
    ReachedSides(events);
  }

  /**
   A document row is added exactly if its identifier is new, what it refers to is stored and nothing stored has its
   content; otherwise the tables stay as they are.
   */
  lemma DocumentRowsAdded(db: Db, id: Id, source: SourceDocument, version: DocumentVersion, row: ParsedRow)
    ensures WithSource(db, id, source) == if id in db.sources then db else db.(sources := db.sources[id := source])
    ensures WithVersion(db, id, version) ==
      if id !in db.versions && version.source in db.sources && version !in db.versions.Values
      then db.(versions := db.versions[id := version]) else db
    ensures WithParsed(db, row) ==
      if row.document.Valid() && row.document.id !in db.parsed && row.document.version in db.versions
        && !(exists p :: p in db.parsed && db.parsed[p].configuration == row.configuration
                         && db.parsed[p].document.version == row.document.version)
      then db.(parsed := db.parsed[row.document.id := row]) else db
  {
    if version in db.versions.Values {
      var v :| v in db.versions && db.versions[v] == version;
    }
  }

  // ----- When an import is accepted

  /** The extraction, its run and the report speak of one reading of one document, observation by observation. */
  predicate OneReading(a: Import) {
    && a.extractionRun.id == a.report.extractionRun && a.extraction.run == Some(a.report.extractionRun)
    && a.extractionRun.status == Succeeded && a.extractionRun.stage in {BaselineExtracted, LlmExtracted}
    && a.extractionRun.inputHash == a.run.inputHash
    && a.extraction.parsed == a.report.parsed && a.extraction.version == a.report.version
    && a.extraction.registry == a.report.registry && a.extraction.project == a.report.project
    && |a.extraction.observations| == |a.report.checks|
    && forall i :: 0 <= i < |a.report.checks| ==>
        var x, y := a.extraction.observations[i], a.report.checks[i].observation;
        PyEqual(x.value, y.value) && x.(value := y.value) == y
  }

  /** The validation succeeded over the text of a stored document of the report's own project. */
  predicate OfStoredDocument(db: Db, a: Import) {
    && a.run.id == a.report.run && a.run.status == Succeeded && a.run.stage == QualityValidated
    && a.report.parsed in db.parsed && a.report.version in db.versions
    && var document, version := db.parsed[a.report.parsed].document, db.versions[a.report.version];
    && document.version == a.report.version && a.run.inputHash == OfDocument(document)
    && version.source in db.sources
    && db.sources[version.source].registry == a.report.registry && db.sources[version.source].project == a.report.project
  }

  /** The fault of one reference, if it has one: wrong version, not on its page, or not at its offsets. */
  function FaultOf(document: ParsedDocument, version: Id, rejected: bool, e: Evidence): Option<ImportError> {
    var onPage := 1 <= e.page <= |document.pages| && !Blank(e.quote) && Occurs(document.pages[e.page - 1], e.quote);
    var placed := onPage && e.start.Some? && e.end.Some? ==>
      e.end.value <= |document.pages[e.page - 1]| && Slice(document.pages[e.page - 1], e.start.value, e.end.value) == e.quote;
    if e.version == version && (rejected || (onPage && placed)) then None
    else Some(if e.version != version then EvidenceVersionMismatch else if onPage then EvidenceOffsetsMismatch else EvidenceNotGrounded)
  }

  function FaultAt(document: ParsedDocument, report: Report, i: nat, j: nat): Option<ImportError>
    requires i < |report.checks| && j < |report.checks[i].observation.evidence|
  {
    FaultOf(document, report.version, report.checks[i].status.RejectedCheck?, report.checks[i].observation.evidence[j])
  }

  /** Reference `j` of check `i` is the first faulty one. */
  ghost predicate FirstFault(document: ParsedDocument, report: Report, i: nat, j: nat) {
    && i < |report.checks| && j < |report.checks[i].observation.evidence| && FaultAt(document, report, i, j).Some?
    && (forall l :: 0 <= l < j ==> FaultAt(document, report, i, l).None?)
    && NoFaultBefore(document, report, i)
  }

  lemma FaultIsFaultOf(document: ParsedDocument, version: Id, status: CheckStatus, e: Evidence)
    ensures EvidenceFault(document, version, status, e) == FaultOf(document, version, status.RejectedCheck?, e)
  {
    hide Blank, Occurs, Slice;
  }

  lemma {:induction false} CheckFaultIsFirst(document: ParsedDocument, version: Id, status: CheckStatus, refs: seq<Evidence>)
    returns (j: nat)
    ensures CheckFault(document, version, status, refs).None? <==>
      forall l :: 0 <= l < |refs| ==> FaultOf(document, version, status.RejectedCheck?, refs[l]).None?
    ensures CheckFault(document, version, status, refs).Some? ==>
      && j < |refs| && CheckFault(document, version, status, refs) == FaultOf(document, version, status.RejectedCheck?, refs[j])
      && forall l :: 0 <= l < j ==> FaultOf(document, version, status.RejectedCheck?, refs[l]).None?
  {
    j := 0;
    if refs != [] {
      var front := refs[..|refs| - 1];
      j := CheckFaultIsFirst(document, version, status, front);
      FaultIsFaultOf(document, version, status, refs[|refs| - 1]);
      assert forall l :: 0 <= l < |front| ==> front[l] == refs[l];
      hide EvidenceFault, FaultOf;
      if CheckFault(document, version, status, front).None? { j := |front|; }
    }
  }

  ghost predicate NoFaultIn(document: ParsedDocument, report: Report, i: nat)
    requires i < |report.checks|
  {
    forall j: nat :: j < |report.checks[i].observation.evidence| ==> FaultAt(document, report, i, j).None?
  }

  /** The first `n` checks have no faulty reference. */
  ghost predicate NoFaultBefore(document: ParsedDocument, report: Report, n: nat)
    requires n <= |report.checks|
  {
    forall i: nat :: i < n ==> NoFaultIn(document, report, i)
  }

  ghost predicate NoFault(document: ParsedDocument, report: Report) { NoFaultBefore(document, report, |report.checks|) }

  lemma CheckFaultAt(document: ParsedDocument, report: Report, i: nat) returns (j: nat)
    requires i < |report.checks|
    ensures var fault := CheckFault(document, report.version, report.checks[i].status, report.checks[i].observation.evidence);
      && (fault.None? <==> NoFaultIn(document, report, i))
      && (fault.Some? ==>
            && j < |report.checks[i].observation.evidence| && fault == FaultAt(document, report, i, j)
            && forall l: nat :: l < j ==> FaultAt(document, report, i, l).None?)
  {
    j := CheckFaultIsFirst(document, report.version, report.checks[i].status, report.checks[i].observation.evidence);
    hide FaultOf, CheckFault;
    var check := report.checks[i];
    assert forall l: nat :: l < |check.observation.evidence| ==>
      FaultAt(document, report, i, l) == FaultOf(document, report.version, check.status.RejectedCheck?, check.observation.evidence[l]);
  }

  lemma {:induction false} FaultIsFirst(document: ParsedDocument, report: Report, n: nat) returns (i: nat, j: nat)
    requires n <= |report.checks|
    ensures var fault := ChecksFault(document, report.version, report.checks[..n]);
      && (fault.None? <==> NoFaultBefore(document, report, n))
      && (fault.Some? ==> FirstFault(document, report, i, j) && fault == FaultAt(document, report, i, j))
    decreases n
  {
    i, j := 0, 0;
    if n > 0 {
      hide FaultAt, CheckFault, NoFaultIn;
      assert report.checks[..n][..n - 1] == report.checks[..n - 1];
      i, j := FaultIsFirst(document, report, n - 1);
      var m := CheckFaultAt(document, report, n - 1);
      if ChecksFault(document, report.version, report.checks[..n - 1]).None? { i, j := n - 1, m; }
    }
  }

  lemma CoherentIsOneReading(a: Import)
    ensures Coherent(a) <==> OneReading(a)
  {
    hide PyEqual;
    if |a.extraction.observations| == |a.report.checks| {
      forall i | 0 <= i < |a.report.checks|
        ensures var x, y := a.extraction.observations[i], a.report.checks[i].observation;
          x.Same(y) <==> PyEqual(x.value, y.value) && x.(value := y.value) == y
      {
      }
    }
  }

  lemma IdentifiedIsStored(db: Db, a: Import)
    ensures Identified(db, a) <==> OfStoredDocument(db, a)
  {
  }

  /** Whether an import is new, an exact repetition or refused, and for which reason; the first one that applies. */
  lemma ImportIsAcceptedIff(db: Db, a: Import) returns (i: nat, j: nat)
    ensures var r := ImportOutcome(db, a);
      && (r == Err(ExtractionMismatch) <==> !OneReading(a))
      && (r == Err(ProvenanceMismatch) <==> OneReading(a) && !OfStoredDocument(db, a))
      && (OneReading(a) && OfStoredDocument(db, a) ==>
            var document := db.parsed[a.report.parsed].document;
            if !NoFault(document, a.report) then
              FirstFault(document, a.report, i, j) && r == Err(FaultAt(document, a.report, i, j).value)
            else
              && (r == Ok(true) <==>
                    && a.run.id in db.reports && db.reports[a.run.id].report == a.report
                    && db.reports[a.run.id].extraction == a.extraction
                    && a.run.id in db.runs && db.runs[a.run.id] == a.run
                    && a.extractionRun.id in db.runs && db.runs[a.extractionRun.id] == a.extractionRun)
              && (r == Ok(false) <==>
                    && a.run.id !in db.reports && a.run.id !in db.runs && a.run.id != a.extractionRun.id
                    && (a.extractionRun.id in db.runs ==> db.runs[a.extractionRun.id] == a.extractionRun))
              && (r == Err(ExtractionRunConflict) <==>
                    a.run.id !in db.reports && a.extractionRun.id in db.runs && db.runs[a.extractionRun.id] != a.extractionRun)
              && (r == Err(RunRowMissing) <==> a.run.id in db.reports && !(a.run.id in db.runs && a.extractionRun.id in db.runs)))
  {
    CoherentIsOneReading(a);
    IdentifiedIsStored(db, a);
    hide Coherent, Identified, OneReading;
    i, j := 0, 0;
    if OneReading(a) && OfStoredDocument(db, a) {
      i, j := FaultIsFirst(db.parsed[a.report.parsed].document, a.report, |a.report.checks|);
      assert a.report.checks[..|a.report.checks|] == a.report.checks;
    }
    hide ChecksFault, FaultOf, FirstFault, OfStoredDocument;
  }

  // ----- Why a request is refused, and what a recorded one writes

  /** The codes a replacement is blocked for: what it deserves on its own and no reviewer may override. */
  predicate Blocks(document: ParsedDocument, after: Observation, code: Code) {
    && Deserves(document, [after], 0.8, 0, code)
    && !code.SemanticSupportPending? && !code.ConfidenceUnknown? && !code.ConfidenceBelowThreshold?
  }

  lemma BlockingCodesAreDeserved(document: ParsedDocument, after: Observation)
    ensures forall c :: c in CodesOf(CheckOf(document, [after], REVIEW_THRESHOLD, 0).issues) - SOFT_CODES <==> Blocks(document, after, c)
  {
    hide CodesOf, CheckOf, Deserves;
    forall c
      ensures c in CodesOf(CheckOf(document, [after], REVIEW_THRESHOLD, 0).issues) <==> Deserves(document, [after], REVIEW_THRESHOLD, 0, c)
    {
      IssuesAreDeserved(document, [after], REVIEW_THRESHOLD, 0, c);
    }
  }

  /** Past the identity of the request: its candidate is stored and it names the current fact. */
  ghost predicate UpToDate(db: Db, r: ReviewRequest) {
    && r.Valid() && r.decision !in db.requests && r.candidate in db.candidates && db.candidates[r.candidate].run in db.reports
    && var candidate, row := db.candidates[r.candidate], db.reports[db.candidates[r.candidate].run];
    && var scope := Scope(row.registry, row.project, candidate.field);
    && r.expectedCurrent == (if scope in db.heads then Some(db.heads[scope]) else None)
  }

  /** Requests that no approval check decides: invalid, repeated, in conflict, about nothing stored, or stale. */
  lemma EarlyRefusals(events: seq<Event>, r: ReviewRequest)
    ensures var db, o := Reached(events), DecideOutcome(Reached(events), r);
      && (o == InvalidRequest <==> !Proper(r))
      && (o.Reused? <==> r.Valid() && r.decision in db.requests && db.requests[r.decision] == r)
      && (o.Reused? ==> o.fact == if r.status.Approved? then Some(OfDecision(r.decision)) else None)
      && (o == Blocked({DecisionIdConflict}) <==> r.Valid() && r.decision in db.requests && db.requests[r.decision] != r)
      && (o == Blocked({CandidateNotFound}) <==> r.Valid() && r.decision !in db.requests && r.candidate !in db.candidates)
      && (o == Blocked({StaleCurrentFact}) <==>
            r.Valid() && r.decision !in db.requests && r.candidate in db.candidates && !UpToDate(db, r))
  {
    hide Run, RunHistory, DocumentsOk, ReportsOk, EvidenceOk, FactsOk, HeadsOk, ChainsOk, PeriodsOk, DecideOutcome, UpToDate;
    ReachedSides(events);
    var db := Reached(events);
    CandidateRunsStored(db);
    if r.decision in db.requests { assert DecisionOk(db, r.decision); }
    hide CandidatesOk, DecisionsOk;
    EarlyOutcome(db, r);
    ProperIff(r);
    hide Proper;
  }

  lemma EarlyOutcome(db: Db, r: ReviewRequest)
    requires r.candidate in db.candidates ==> db.candidates[r.candidate].run in db.reports
    ensures var o := DecideOutcome(db, r);
      && (o == InvalidRequest <==> !r.Valid())
      && (o.Reused? <==> r.Valid() && r.decision in db.requests && db.requests[r.decision] == r)
      && (o.Reused? ==> o.fact == if OfDecision(r.decision) in db.facts then Some(OfDecision(r.decision)) else None)
      && (o == Blocked({DecisionIdConflict}) <==> r.Valid() && r.decision in db.requests && db.requests[r.decision] != r)
      && (o == Blocked({CandidateNotFound}) <==> r.Valid() && r.decision !in db.requests && r.candidate !in db.candidates)
      && (o == Blocked({StaleCurrentFact}) <==>
            r.Valid() && r.decision !in db.requests && r.candidate in db.candidates && !UpToDate(db, r))
  {
    assert DecisionIdConflict in {DecisionIdConflict} && CandidateNotFound in {CandidateNotFound} && StaleCurrentFact in {StaleCurrentFact};
    if r.Valid() && r.candidate in db.candidates { ApprovalNamesItsOwn(db, r); }
    hide ApprovalOutcome;
  }

  lemma ApprovalNamesItsOwn(db: Db, r: ReviewRequest)
    requires r.Valid() && r.candidate in db.candidates && db.candidates[r.candidate].run in db.reports
    ensures r.status.Approved? && ApprovalOutcome(db, r).Blocked? ==>
      var codes := ApprovalOutcome(db, r).codes;
      DecisionIdConflict !in codes && CandidateNotFound !in codes && StaleCurrentFact !in codes
  {
    hide CodesOf, CheckOf, PeriodGuard, Accepted;
  }

  /** What an approval comes to, by field, value and crediting period. */
  ghost predicate Verdict(db: Db, r: ReviewRequest, o: Outcome)
    requires r.Valid() && r.status.Approved?
    requires r.candidate in db.candidates && db.candidates[r.candidate].run in db.reports
    requires db.reports[db.candidates[r.candidate].run].report.parsed in db.parsed
  {
    var candidate, row := db.candidates[r.candidate], db.reports[db.candidates[r.candidate].run];
    var document, after := db.parsed[row.report.parsed].document, r.after.value;
    if after.field != candidate.field then o == Blocked({ReplacementFieldMismatch})
    else if !WellFounded(document, after) then
      o.Blocked? && forall b :: b in o.codes <==> b.Failing? && Blocks(document, after, b.code)
    else if !KeepsPeriod(db, row.registry, row.project, candidate.field, after.value) then o == Blocked({DateOrderReversed})
    else o == Recorded(Approved, Some(OfDecision(r.decision)))
  }

  lemma FailingCodes(codes: set<Code>)
    ensures forall b :: b in (set c | c in codes :: Failing(c)) <==> b.Failing? && b.code in codes
  {
  }

  lemma VerdictOf(db: Db, r: ReviewRequest, document: ParsedDocument, codes: set<Code>)
    requires r.Valid() && r.status.Approved?
    requires r.candidate in db.candidates && db.candidates[r.candidate].run in db.reports
    requires var row := db.reports[db.candidates[r.candidate].run];
      && row.report.parsed in db.parsed && document == db.parsed[row.report.parsed].document
      && Accepted(document, row.extraction.(observations := [r.after.value]), REVIEW_THRESHOLD)
    requires codes == CodesOf(CheckOf(document, [r.after.value], REVIEW_THRESHOLD, 0).issues) - SOFT_CODES
    requires codes == {} <==> WellFounded(document, r.after.value)
    requires forall c :: c in codes <==> Blocks(document, r.after.value, c)
    requires var scope, value := ScopeOf(db, r.candidate), r.after.value.value;
      && (PeriodGuard(db, scope, value) == InOrder <==> KeepsPeriod(db, scope.registry, scope.project, scope.field, value))
      && (codes == {} && r.after.value.field == scope.field ==> !PeriodGuard(db, scope, value).Unreadable?)
    ensures Verdict(db, r, ApprovalOutcome(db, r))
  {
    hide CodesOf, CheckOf, PeriodGuard, KeepsPeriod, WellFounded, Accepted, Blocks;
    FailingCodes(codes);
  }

  lemma ApprovalOnSound(db: Db, r: ReviewRequest)
    requires DocumentsOk(db) && CandidatesOk(db) && ReportsOk(db) && HeadsOk(db) && FactsOk(db)
    requires r.Valid() && r.status.Approved? && r.candidate in db.candidates
    ensures db.candidates[r.candidate].run in db.reports
    ensures db.reports[db.candidates[r.candidate].run].report.parsed in db.parsed
    ensures Verdict(db, r, ApprovalOutcome(db, r))
  {
    CandidateReportStored(db, r.candidate);
    var run := db.candidates[r.candidate].run;
    ReviseAccepted(db, run, r.after.value);
    hide CandidatesOk, ReportsOk, Blocks, KeepsPeriod, DocumentsOk, WellFounded, HeadsOk, FactsOk;
    hide ApprovalOutcome, Verdict, CheckOf, CodesOf, PeriodGuard, Accepted;
    var document, scope := db.parsed[db.reports[run].report.parsed].document, ScopeOf(db, r.candidate);
    SoloCheck(document, r.after.value);
    BlockingCodesAreDeserved(document, r.after.value);
    GuardKeepsPeriod(db, scope, r.after.value.value);
    if WellFounded(document, r.after.value) && r.after.value.field == db.candidates[r.candidate].field {
      ValueIsFit(document, r.after.value);
      PeriodGuardReadable(db, scope, r.after.value.value, r.after.value.unit);
    }
    VerdictOf(db, r, document, CodesOf(CheckOf(document, [r.after.value], REVIEW_THRESHOLD, 0).issues) - SOFT_CODES);
  }

  lemma ValueIsFit(document: ParsedDocument, o: Observation)
    requires WellFounded(document, o)
    ensures ValueFits(o.field, o.value, o.unit)
  {
  }

  /**
   An approval past that point is refused for the first of three reasons: another field, codes no reviewer may
   override, exactly those the new value deserves, or a crediting period out of order.
   */
  lemma ApprovalRefusedBecause(events: seq<Event>, r: ReviewRequest)
    requires UpToDate(Reached(events), r) && r.status.Approved?
    ensures var db := Reached(events);
      && db.reports[db.candidates[r.candidate].run].report.parsed in db.parsed
      && Verdict(db, r, DecideOutcome(db, r))
  {
    hide Run, RunHistory, EvidenceOk, DecisionsOk, ChainsOk, PeriodsOk, DocumentsOk, ReportsOk, CandidatesOk, FactsOk, HeadsOk;
    hide Verdict, ApprovalOutcome, DecideOutcome;
    ReachedSides(events);
    ApprovalOnSound(Reached(events), r);
    ApprovalDecides(Reached(events), r);
    hide UpToDate;
  }

  lemma ApprovalDecides(db: Db, r: ReviewRequest)
    requires UpToDate(db, r) && r.status.Approved?
    ensures DecideOutcome(db, r) == ApprovalOutcome(db, r)
  {
    hide ApprovalOutcome;
  }

  /** What the tables are after a decision on `r`: its rows, and an approval's fact as the head of its scope. */
  ghost predicate Written(was: Db, db: Db, r: ReviewRequest, now: Time)
    requires r.candidate in was.candidates && was.candidates[r.candidate].run in was.reports
  {
    && r.decision !in was.decisions && db.decisions.Keys == was.decisions.Keys + {r.decision}
    && db.decisions[r.decision].createdAt == now && db.decisions[r.decision].candidate == r.candidate
    && db.sources == was.sources && db.versions == was.versions && db.parsed == was.parsed && db.runs == was.runs
    && db.reports == was.reports && db.candidates == was.candidates && db.evidence == was.evidence
    && var row := was.reports[was.candidates[r.candidate].run];
    && var scope, fact := Scope(row.registry, row.project, was.candidates[r.candidate].field), OfDecision(r.decision);
    if r.status.Approved? then
      && fact !in was.facts && db.facts.Keys == was.facts.Keys + {fact} && db.heads == was.heads[scope := fact]
      && db.links.Keys == was.links.Keys + {fact} && db.links[fact].createdAt == now
    else db.facts == was.facts && db.links == was.links && db.heads == was.heads
  }

  lemma CommitWrites(db: Db, r: ReviewRequest, now: Time)
    requires Recording(db, r)
    ensures Written(db, Commit(db, r, now), r, now)
  {
    hide ValueBefore, Written;
    if r.status.Approved? { ApprovalWrites(db, r, now); } else { OtherWrites(db, r, now); }
  }

  lemma ApprovalWrites(db: Db, r: ReviewRequest, now: Time)
    requires Recording(db, r) && r.status.Approved?
    ensures Written(db, Commit(db, r, now), r, now)
  {
    hide DecisionRowOf, ValueAfter, CurrentFact;
    RowStamped(db, r, now);
  }

  lemma OtherWrites(db: Db, r: ReviewRequest, now: Time)
    requires Recording(db, r) && !r.status.Approved?
    ensures Written(db, Commit(db, r, now), r, now)
  {
    hide DecisionRowOf, ValueAfter, CurrentFact;
    RowStamped(db, r, now);
  }

  lemma RowStamped(db: Db, r: ReviewRequest, now: Time)
    ensures DecisionRowOf(db, r, now).createdAt == now && DecisionRowOf(db, r, now).candidate == r.candidate
  {
  }

  /** A recorded decision is stamped with its time; an approval makes its fact the head of its scope; nothing else moves. */
  lemma DecisionWrites(events: seq<Event>, r: ReviewRequest, now: Time)
    requires DecideOutcome(Reached(events), r).Recorded?
    ensures var was := Reached(events);
      && r.candidate in was.candidates && was.candidates[r.candidate].run in was.reports
      && Written(was, DecideTables(was, r, now), r, now)
  {
    hide Run, RunHistory, DocumentsOk, ReportsOk, CandidatesOk, EvidenceOk, DecisionsOk, FactsOk, HeadsOk, ChainsOk, PeriodsOk;
    ReachedSides(events);
    hide DecideOutcome, Approvable, Commit, Written;
    RecordedIff(Reached(events), r);
    CommitWrites(Reached(events), r, now);
  }

  /** The request model, spelled out: attributed and reasoned; an approval is authorised and carries a value, nothing else does. */
  predicate Proper(r: ReviewRequest) {
    && !Blank(r.reviewer) && !Blank(r.reason)
    && (r.after.Some? ==> r.after.value.Valid())
    && (r.status == Approved <==> r.authorityConfirmed) && (r.status == Approved <==> r.after.Some?)
    && (r.after.Some? ==> r.after.value.missing == None)
  }

  lemma ProperIff(r: ReviewRequest)
    ensures r.Valid() <==> Proper(r)
  {
    hide Blank;
  }

  /** Every decision ever recorded is attributed, reasoned and, if it is an approval, authorised. */
  lemma DecisionsAreAttributed(events: seq<Event>, d: Id)
    requires d in Reached(events).decisions
    ensures var db := Reached(events);
      && d in db.requests && Proper(db.requests[d])
      && db.decisions[d].reviewer == db.requests[d].reviewer && db.decisions[d].reason == db.requests[d].reason
      && db.decisions[d].status == db.requests[d].status
      && (OfDecision(d) in db.facts <==> db.requests[d].authorityConfirmed)
  {
    hide Run, RunHistory, DocumentsOk, ReportsOk, CandidatesOk, EvidenceOk, FactsOk, HeadsOk, ChainsOk, PeriodsOk, Proper;
    ReachedSides(events);
    assert DecisionOk(Reached(events), d);
    ProperIff(Reached(events).requests[d]);
  }

  /** A run of the store takes its transactions one after another. */
  lemma NextStore(events: seq<Event>, e: Event)
    ensures Reached([]) == Empty()
    ensures var was, db := Reached(events), Reached(events + [e]);
      match e
      case AddSource(id, source) => db == WithSource(was, id, source)
      case AddVersion(id, version) => db == WithVersion(was, id, version)
      case AddParsed(row) => db == WithParsed(was, row)
      case AddRun(run) => db == if run.id in was.runs then was else was.(runs := was.runs[run.id := run])
      case ImportValidation(a) => db == if a.Valid() then ImportTables(was, a) else was
      case Review(r, now) => db == DecideTables(was, r, now)
  {
    assert (events + [e])[..|events|] == events;
    hide WithSource, WithVersion, WithParsed, ImportTables, DecideTables;
  }
}
