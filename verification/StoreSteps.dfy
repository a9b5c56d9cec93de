/** Every transaction keeps the invariant. */
module StoreSteps {
  import opened Wrappers
  import opened Fields
  import opened Calendar
  import opened Domain
  import opened Validation
  import opened Store
  import opened StoreInvariant

  lemma EmptyOk()
    ensures Sound(Empty(), map[])
  {
  }

  lemma IncludesMore<K, V>(m: map<K, V>, k: K, v: V)
    ensures k !in m || m[k] == v ==> Includes(m, m[k := v])
  {
  }

  lemma IncludesUnion<K, V>(m: map<K, V>, n: map<K, V>)
    requires m.Keys !! n.Keys
    ensures Includes(m, m + n)
  {
  }

  lemma IncludesTransitive<K, V>(l: map<K, V>, m: map<K, V>, n: map<K, V>)
    requires Includes(l, m) && Includes(m, n)
    ensures Includes(l, n)
  {
  }

  lemma IncludesSelf<K, V>(m: map<K, V>)
    ensures Includes(m, m)
  {
  }

  lemma GrowsSelf(db: Db)
    ensures Grows(db, db)
  {
    hide Includes;
    IncludesSelf(db.sources);
    IncludesSelf(db.versions);
    IncludesSelf(db.parsed);
    IncludesSelf(db.runs);
    IncludesSelf(db.reports);
    IncludesSelf(db.candidates);
    IncludesSelf(db.evidence);
    IncludesSelf(db.decisions);
    IncludesSelf(db.requests);
    IncludesSelf(db.facts);
    IncludesSelf(db.links);
  }

  lemma ReportOkGrows(a: Db, b: Db, run: Id)
    requires Grows(a, b) && run in a.reports && ReportOk(a, run)
    ensures ReportOk(b, run)
  {
  }

  lemma CandidateOkGrows(a: Db, b: Db, c: Id)
    requires Grows(a, b) && c in a.candidates && CandidateOk(a, c)
    ensures CandidateOk(b, c)
  {
  }

  lemma FactOkGrows(a: Db, b: Db, f: Id)
    requires Grows(a, b) && f in a.facts && f in a.links && FactOk(a, f)
    ensures FactOk(b, f)
  {
    var r := a.requests[a.facts[f].decision];
    assert ScopeOf(b, r.candidate) == ScopeOf(a, r.candidate);
    assert LinkOf(b, r, a.links[f].createdAt) == LinkOf(a, r, a.links[f].createdAt);
  }

  lemma DecisionsGrow(a: Db, b: Db)
    requires DecisionsOk(a) && Includes(a.candidates, b.candidates)
    requires b.decisions == a.decisions && b.requests == a.requests && b.facts == a.facts
    ensures DecisionsOk(b)
  {
    forall d | d in b.decisions && d in b.requests
      ensures DecisionOk(b, d)
    {
      assert DecisionOk(a, d);
    }
  }

  lemma FactsGrow(a: Db, b: Db)
    requires FactsOk(a) && Grows(a, b) && b.facts == a.facts && b.links == a.links
    ensures FactsOk(b)
  {
    forall f | f in b.facts && f in b.links
      ensures FactOk(b, f)
    {
      FactOkGrows(a, b, f);
    }
  }

  lemma ChainsGrow(a: Db, b: Db, h: History)
    requires ChainsOk(a, h) && Includes(a.requests, b.requests) && Includes(a.decisions, b.decisions)
    requires b.heads == a.heads && b.facts == a.facts
    ensures ChainsOk(b, h)
  {
    forall k | k in h
      ensures Chain(b, k, h[k])
    {
      assert Chain(a, k, h[k]);
      forall i | 0 <= i < |h[k]|
        ensures ChainLink(b, h[k], i)
      {
        assert ChainLink(a, h[k], i);
      }
    }
  }

  predicate SameReview(a: Db, b: Db) {
    && b.decisions == a.decisions && b.requests == a.requests && b.facts == a.facts
    && b.links == a.links && b.heads == a.heads
  }

  predicate SameImports(a: Db, b: Db) {
    b.reports == a.reports && b.candidates == a.candidates && b.evidence == a.evidence
  }

  lemma PeriodsSame(a: Db, b: Db)
    requires PeriodsOk(a) && b.facts == a.facts && b.heads == a.heads
    ensures PeriodsOk(b)
  {
  }

  /** The review half of the invariant looks at documents, runs and reports only through rows that stay. */
  lemma ReviewSideGrows(a: Db, b: Db, h: History)
    requires ReviewSideOk(a, h) && Grows(a, b) && SameReview(a, b)
    ensures ReviewSideOk(b, h)
  {
    hide DecisionsOk, FactsOk, ChainsOk, PeriodsOk;
    DecisionsGrow(a, b);
    FactsGrow(a, b);
    ChainsGrow(a, b, h);
    PeriodsSame(a, b);
    assert HeadsOk(b);
  }

  lemma ReportsGrow(a: Db, b: Db)
    requires ReportsOk(a) && Grows(a, b) && b.reports == a.reports
    ensures ReportsOk(b)
  {
    forall run | run in b.reports
      ensures ReportOk(b, run)
    {
      ReportOkGrows(a, b, run);
    }
  }

  lemma CandidatesSame(a: Db, b: Db)
    requires CandidatesOk(a) && EvidenceOk(a)
    requires b.reports == a.reports && b.candidates == a.candidates && b.evidence == a.evidence
    ensures CandidatesOk(b) && EvidenceOk(b)
  {
    forall c | c in b.candidates
      ensures CandidateOk(b, c)
    {
      assert CandidateOk(a, c);
    }
    forall k | k in b.evidence
      ensures EvidenceRowOk(b, k)
    {
      assert EvidenceRowOk(a, k);
    }
    forall run, i: nat, j: nat | run in b.reports && i < |b.reports[run].report.checks| && j < |Refs(b, run, i)|
      ensures (OfCandidate(run, i), j) in b.evidence
    {
      assert Refs(b, run, i) == Refs(a, run, i);
    }
  }

  /** Adding a source, a version, a parsed document or another component's run row. */
  lemma DocumentStepOk(a: Db, b: Db, h: History)
    requires ImportSideOk(a) && ReviewSideOk(a, h) && Grows(a, b) && DocumentsOk(b)
    requires SameImports(a, b) && SameReview(a, b)
    ensures ImportSideOk(b) && ReviewSideOk(b, h)
  {
    ReportsGrow(a, b);
    CandidatesSame(a, b);
    ReviewSideGrows(a, b, h);
  }

  ghost predicate DocumentStep(a: Db, b: Db) { Grows(a, b) && SameImports(a, b) && SameReview(a, b) }

  lemma WithSourceOk(db: Db, id: Id, source: SourceDocument)
    requires DocumentsOk(db)
    ensures DocumentsOk(WithSource(db, id, source)) && DocumentStep(db, WithSource(db, id, source))
  {
    hide Includes;
    GrowsSelf(db);
    IncludesMore(db.sources, id, source);
  }

  lemma WithVersionOk(db: Db, id: Id, version: DocumentVersion)
    requires DocumentsOk(db)
    ensures DocumentsOk(WithVersion(db, id, version)) && DocumentStep(db, WithVersion(db, id, version))
  {
    hide Includes;
    GrowsSelf(db);
    IncludesMore(db.versions, id, version);
  }

  lemma WithParsedOk(db: Db, row: ParsedRow)
    requires DocumentsOk(db)
    ensures DocumentsOk(WithParsed(db, row)) && DocumentStep(db, WithParsed(db, row))
  {
    hide Includes;
    GrowsSelf(db);
    IncludesMore(db.parsed, row.document.id, row);
  }

  lemma WithRunOk(db: Db, run: PipelineRun)
    requires DocumentsOk(db)
    ensures DocumentsOk(WithRun(db, run)) && DocumentStep(db, WithRun(db, run))
  {
    hide Includes;
    GrowsSelf(db);
    IncludesMore(db.runs, run.id, run);
  }

  // ----- Import

  lemma NewRowsFresh(db: Db, run: Id, checks: seq<Check>)
    requires CandidatesOk(db) && EvidenceOk(db) && run !in db.reports
    ensures db.candidates.Keys !! CandidateRows(run, checks).Keys
    ensures db.evidence.Keys !! EvidenceRows(run, checks).Keys
  {
    forall c | c in db.candidates
      ensures c !in CandidateRows(run, checks)
    {
      assert CandidateOk(db, c);
    }
    forall k | k in db.evidence
      ensures k !in EvidenceRows(run, checks)
    {
      assert EvidenceRowOk(db, k);
    }
  }

  /** What acceptance of a new import gives. */
  ghost predicate Importing(db: Db, a: Import) {
    && a.Valid() && Coherent(a) && Identified(db, a)
    && a.run.id !in db.reports && a.run.id !in db.runs && a.run.id != a.extractionRun.id
    && (a.extractionRun.id in db.runs ==> db.runs[a.extractionRun.id] == a.extractionRun)
  }

  lemma NewImport(db: Db, a: Import)
    requires a.Valid() && ImportOutcome(db, a) == Ok(false)
    ensures Importing(db, a)
  {
    hide Coherent, Identified, ChecksFault;
  }

  lemma ImportedGrows(db: Db, a: Import)
    requires Importing(db, a) && CandidatesOk(db) && EvidenceOk(db)
    ensures Grows(db, Imported(db, a))
  {
    NewRowsFresh(db, a.run.id, a.report.checks);
    hide Includes, CandidateRows, EvidenceRows, CandidatesOk, EvidenceOk, Coherent, Identified, ReportRowOf;
    GrowsSelf(db);
    var mid := db.runs[a.extractionRun.id := a.extractionRun];
    IncludesMore(db.runs, a.extractionRun.id, a.extractionRun);
    IncludesMore(mid, a.run.id, a.run);
    IncludesTransitive(db.runs, mid, mid[a.run.id := a.run]);
    IncludesMore(db.reports, a.run.id, ReportRowOf(a));
    IncludesUnion(db.candidates, CandidateRows(a.run.id, a.report.checks));
    IncludesUnion(db.evidence, EvidenceRows(a.run.id, a.report.checks));
  }

  lemma NewReportOk(db: Db, a: Import)
    requires Importing(db, a) && DocumentsOk(db)
    ensures a.run.id in Imported(db, a).reports && ReportOk(Imported(db, a), a.run.id)
  {
    hide CandidateRows, EvidenceRows;
  }

  lemma ImportKeepsReports(db: Db, a: Import)
    requires Importing(db, a) && DocumentsOk(db) && ReportsOk(db) && Grows(db, Imported(db, a))
    ensures ReportsOk(Imported(db, a))
  {
    NewReportOk(db, a);
    hide CandidateRows, EvidenceRows, Coherent, Identified, ReportOk, Grows, DocumentsOk, ReportRowOf;
    var t := Imported(db, a);
    forall run | run in t.reports
      ensures ReportOk(t, run)
    {
      if run in db.reports { ReportOkGrows(db, t, run); }
    }
  }

  lemma NewCandidateOk(db: Db, a: Import, c: Id)
    requires Importing(db, a) && c in CandidateRows(a.run.id, a.report.checks)
    ensures c in Imported(db, a).candidates && CandidateOk(Imported(db, a), c)
  {
    hide EvidenceRows, Coherent, Identified;
  }

  lemma CandidatePresent(db: Db, a: Import, run: Id, i: nat)
    requires Importing(db, a) && CandidatesOk(db)
    requires run in Imported(db, a).reports && i < |Imported(db, a).reports[run].report.checks|
    ensures OfCandidate(run, i) in Imported(db, a).candidates
  {
    hide EvidenceRows, Coherent, Identified, CandidateOk;
    if run in db.reports {
      assert OfCandidate(run, i) in db.candidates;
    } else {
      assert OfCandidate(run, i) in CandidateRows(a.run.id, a.report.checks);
    }
  }

  lemma OldOrNewCandidate(db: Db, a: Import, c: Id)
    requires Importing(db, a) && CandidatesOk(db) && Grows(db, Imported(db, a)) && c in Imported(db, a).candidates
    ensures CandidateOk(Imported(db, a), c)
  {
    hide CandidateRows, EvidenceRows, Coherent, Identified, CandidateOk, Grows;
    if c in CandidateRows(a.run.id, a.report.checks) {
      NewCandidateOk(db, a, c);
    } else {
      CandidateOkGrows(db, Imported(db, a), c);
    }
  }

  lemma ImportKeepsCandidates(db: Db, a: Import)
    requires Importing(db, a) && CandidatesOk(db) && Grows(db, Imported(db, a))
    ensures CandidatesOk(Imported(db, a))
  {
    hide Imported, Importing, CandidateOk, Grows;
    var t := Imported(db, a);
    forall c | c in t.candidates
      ensures CandidateOk(t, c)
    {
      OldOrNewCandidate(db, a, c);
    }
    forall run, i | run in t.reports && 0 <= i < |t.reports[run].report.checks|
      ensures OfCandidate(run, i) in t.candidates
    {
      CandidatePresent(db, a, run, i);
    }
  }

  lemma NewEvidenceRowOk(db: Db, a: Import, k: (Id, nat))
    requires Importing(db, a) && k in EvidenceRows(a.run.id, a.report.checks)
    ensures k in Imported(db, a).evidence && EvidenceRowOk(Imported(db, a), k)
  {
    hide CandidateRows, Coherent, Identified;
  }

  lemma OldOrNewEvidence(db: Db, a: Import, k: (Id, nat))
    requires Importing(db, a) && EvidenceOk(db) && k in Imported(db, a).evidence
    ensures EvidenceRowOk(Imported(db, a), k)
  {
    hide CandidateRows, EvidenceRows, Coherent, Identified;
    if k in EvidenceRows(a.run.id, a.report.checks) {
      NewEvidenceRowOk(db, a, k);
    } else {
      assert EvidenceRowOk(db, k);
    }
  }

  lemma EvidencePresent(db: Db, a: Import, run: Id, i: nat, j: nat)
    requires Importing(db, a) && EvidenceOk(db)
    requires run in Imported(db, a).reports && i < |Imported(db, a).reports[run].report.checks|
    requires j < |Refs(Imported(db, a), run, i)|
    ensures (OfCandidate(run, i), j) in Imported(db, a).evidence
  {
    hide CandidateRows, Coherent, Identified, EvidenceRowOk;
    if run in db.reports {
      assert Refs(Imported(db, a), run, i) == Refs(db, run, i);
    } else {
      assert (OfCandidate(run, i), j) in EvidenceRows(a.run.id, a.report.checks);
    }
  }

  lemma ImportKeepsEvidence(db: Db, a: Import)
    requires Importing(db, a) && EvidenceOk(db)
    ensures EvidenceOk(Imported(db, a))
  {
    hide Imported, Importing, EvidenceRowOk, Refs;
    var t := Imported(db, a);
    forall k | k in t.evidence
      ensures EvidenceRowOk(t, k)
    {
      OldOrNewEvidence(db, a, k);
    }
    forall run, i: nat, j: nat | run in t.reports && i < |t.reports[run].report.checks| && j < |Refs(t, run, i)|
      ensures (OfCandidate(run, i), j) in t.evidence
    {
      EvidencePresent(db, a, run, i, j);
    }
  }

  lemma ImportedKeepsRest(db: Db, a: Import)
    requires DocumentsOk(db)
    ensures DocumentsOk(Imported(db, a)) && SameReview(db, Imported(db, a))
  {
    hide CandidateRows, EvidenceRows, ReportRowOf;
  }

  lemma ImportedKeepsImportSide(db: Db, a: Import)
    requires ImportSideOk(db) && Importing(db, a)
    ensures ImportSideOk(Imported(db, a)) && Grows(db, Imported(db, a))
  {
    hide Importing, Imported, DocumentsOk, ReportsOk, CandidatesOk, EvidenceOk, Grows;
    ImportedGrows(db, a);
    ImportedKeepsRest(db, a);
    ImportKeepsReports(db, a);
    ImportKeepsCandidates(db, a);
    ImportKeepsEvidence(db, a);
  }

  lemma ImportKeepsImportSide(db: Db, a: Import)
    requires ImportSideOk(db) && a.Valid()
    ensures ImportSideOk(ImportTables(db, a)) && Grows(db, ImportTables(db, a))
  {
    hide ImportOutcome, Imported, ImportSideOk, Grows, Importing;
    if ImportOutcome(db, a) == Ok(false) {
      NewImport(db, a);
      ImportedKeepsImportSide(db, a);
    } else {
      GrowsSelf(db);
    }
  }

  lemma ImportKeepsReviewSide(db: Db, h: History, a: Import)
    requires ImportSideOk(db) && ReviewSideOk(db, h) && a.Valid()
    ensures ReviewSideOk(ImportTables(db, a), h)
  {
    hide ImportOutcome, Imported, ReviewSideOk, Importing, ReportsOk, CandidatesOk, EvidenceOk, Grows, SameReview;
    if ImportOutcome(db, a) == Ok(false) {
      NewImport(db, a);
      ImportedKeepsImportSide(db, a);
      ImportedKeepsRest(db, a);
      ReviewSideGrows(db, Imported(db, a), h);
    }
  }

  // ----- Decide

  /** On a sound store an approval is accepted exactly on these grounds, and no exception escapes. */
  ghost predicate Approvable(db: Db, r: ReviewRequest)
    requires r.Valid() && r.status.Approved?
    requires r.candidate in db.candidates && db.candidates[r.candidate].run in db.reports
    requires db.reports[db.candidates[r.candidate].run].report.parsed in db.parsed
  {
    var document := db.parsed[db.reports[db.candidates[r.candidate].run].report.parsed].document;
    && r.after.value.field == db.candidates[r.candidate].field
    && WellFounded(document, r.after.value)
    && PeriodGuard(db, ScopeOf(db, r.candidate), r.after.value.value) == InOrder
  }

  predicate RealDate(value: Json) { value.JStr? && ParseDate(value.s).Some? }

  lemma PeriodValueIsDate(field: Field, value: Json, unit: Option<string>)
    requires ValueFits(field, value, unit) && PeriodField(field)
    ensures RealDate(value)
  {
  }

  lemma FactFits(db: Db, f: Id)
    requires f in db.facts && f in db.links && FactOk(db, f)
    ensures ValueFits(db.facts[f].scope.field, db.facts[f].value, db.facts[f].unit)
  {
  }

  /** Stored period values are real dates, so comparing with one never fails. */
  lemma StoredPeriodsReadable(db: Db, scope: Scope)
    requires HeadsOk(db) && FactsOk(db) && PeriodField(scope.field) && scope in db.heads
    ensures db.heads[scope] in db.facts && RealDate(db.facts[db.heads[scope]].value)
  {
    var f := db.heads[scope];
    FactFits(db, f);
    PeriodValueIsDate(scope.field, db.facts[f].value, db.facts[f].unit);
  }

  lemma DatesCompare(start: Json, end: Json)
    requires RealDate(start) && RealDate(end)
    ensures !Order(start, end).Unreadable?
  {
  }

  lemma GuardReadable(db: Db, scope: Scope, value: Json)
    requires PeriodField(scope.field) ==> RealDate(value)
    requires var other := scope.(field := Counterpart(scope.field));
      PeriodField(scope.field) && other in db.heads && db.heads[other] in db.facts ==> RealDate(db.facts[db.heads[other]].value)
    ensures !PeriodGuard(db, scope, value).Unreadable?
  {
    var other := CurrentFact(db, scope.(field := Counterpart(scope.field)));
    if PeriodField(scope.field) && other.Some? && other.value in db.facts {
      DatesCompare(value, db.facts[other.value].value);
      DatesCompare(db.facts[other.value].value, value);
    }
  }

  lemma PeriodGuardReadable(db: Db, scope: Scope, value: Json, unit: Option<string>)
    requires HeadsOk(db) && FactsOk(db) && ValueFits(scope.field, value, unit)
    ensures !PeriodGuard(db, scope, value).Unreadable?
  {
    var other := scope.(field := Counterpart(scope.field));
    if PeriodField(scope.field) {
      PeriodValueIsDate(scope.field, value, unit);
      if other in db.heads {
        StoredPeriodsReadable(db, other);
      }
    }
    GuardReadable(db, scope, value);
  }

  lemma SoloCheck(document: ParsedDocument, o: Observation)
    requires o.Valid() && o.missing.None?
    ensures CodesOf(CheckOf(document, [o], REVIEW_THRESHOLD, 0).issues) - SOFT_CODES == {} <==> WellFounded(document, o)
  {
    var os := [o];
    assert os[0] == o;
    assert Candidates(os, o.field) == {(o.value, o.unit)};
    OnlySoftCodesIffWellFounded(document, o, REVIEW_THRESHOLD);
  }

  lemma CandidateReportStored(db: Db, c: Id)
    requires CandidatesOk(db) && ReportsOk(db) && c in db.candidates
    ensures db.candidates[c].run in db.reports && ReportOk(db, db.candidates[c].run)
  {
    assert CandidateOk(db, c);
  }

  lemma ReviseAccepted(db: Db, run: Id, after: Observation)
    requires DocumentsOk(db) && run in db.reports && ReportOk(db, run)
    ensures
      Accepted(db.parsed[db.reports[run].report.parsed].document,
               db.reports[run].extraction.(observations := [after]), REVIEW_THRESHOLD)
  {
  }

  /** The verdict once the document is at hand and the period guard can be read. */
  lemma ApprovalVerdict(db: Db, r: ReviewRequest, document: ParsedDocument)
    requires r.Valid() && r.status.Approved?
    requires r.candidate in db.candidates && db.candidates[r.candidate].run in db.reports
    requires var row := db.reports[db.candidates[r.candidate].run];
      && row.report.parsed in db.parsed && document == db.parsed[row.report.parsed].document
      && Accepted(document, row.extraction.(observations := [r.after.value]), REVIEW_THRESHOLD)
    requires WellFounded(document, r.after.value) && r.after.value.field == db.candidates[r.candidate].field ==>
      !PeriodGuard(db, ScopeOf(db, r.candidate), r.after.value.value).Unreadable?
    ensures ApprovalOutcome(db, r).Recorded? <==> Approvable(db, r)
    ensures ApprovalOutcome(db, r).Recorded? ==> ApprovalOutcome(db, r) == Recorded(Approved, Some(OfDecision(r.decision)))
    ensures !ApprovalOutcome(db, r).Broken? && ApprovalOutcome(db, r) != Blocked({ParsedDocumentAbsent})
  {
    SoloCheck(document, r.after.value);
    var codes := CodesOf(CheckOf(document, [r.after.value], REVIEW_THRESHOLD, 0).issues) - SOFT_CODES;
    if codes != {} {
      var c :| c in codes;
      assert Failing(c) in (set k | k in codes :: Failing(k));
    }
  }

  lemma ApprovalAcceptedIff(db: Db, r: ReviewRequest)
    requires DocumentsOk(db) && CandidatesOk(db) && ReportsOk(db) && HeadsOk(db) && FactsOk(db)
    requires r.Valid() && r.status.Approved? && r.candidate in db.candidates
    ensures db.candidates[r.candidate].run in db.reports
    ensures db.reports[db.candidates[r.candidate].run].report.parsed in db.parsed
    ensures ApprovalOutcome(db, r).Recorded? <==> Approvable(db, r)
    ensures ApprovalOutcome(db, r).Recorded? ==> ApprovalOutcome(db, r) == Recorded(Approved, Some(OfDecision(r.decision)))
    ensures !ApprovalOutcome(db, r).Broken? && ApprovalOutcome(db, r) != Blocked({ParsedDocumentAbsent})
  {
    CandidateReportStored(db, r.candidate);
    var run := db.candidates[r.candidate].run;
    var document := db.parsed[db.reports[run].report.parsed].document;
    ReviseAccepted(db, run, r.after.value);
    if WellFounded(document, r.after.value) && r.after.value.field == db.candidates[r.candidate].field {
      PeriodGuardReadable(db, ScopeOf(db, r.candidate), r.after.value.value, r.after.value.unit);
    }
    ApprovalVerdict(db, r, document);
  }

  /** The request passed everything that is checked before its own content. */
  ghost predicate Gate(db: Db, r: ReviewRequest) {
    && r.Valid() && r.decision !in db.requests
    && r.candidate in db.candidates && db.candidates[r.candidate].run in db.reports
    && CurrentFact(db, ScopeOf(db, r.candidate)) == r.expectedCurrent
  }

  /** Ready to be recorded: past the gate, and its identifiers are unused. */
  ghost predicate Recording(db: Db, r: ReviewRequest) {
    && Gate(db, r)
    && r.decision !in db.decisions && OfDecision(r.decision) !in db.facts && OfDecision(r.decision) !in db.links
  }

  lemma FactDecision(db: Db, f: Id)
    requires FactsOk(db) && f in db.facts
    ensures f == OfDecision(db.facts[f].decision) && db.facts[f].decision in db.requests
  {
    assert FactOk(db, f);
  }

  lemma FactIdFresh(db: Db, d: Id)
    requires FactsOk(db) && DecisionsOk(db) && d !in db.requests
    ensures d !in db.decisions && OfDecision(d) !in db.facts && OfDecision(d) !in db.links
  {
    if OfDecision(d) in db.facts { FactDecision(db, OfDecision(d)); }
  }

  lemma OutcomeAtGate(db: Db, r: ReviewRequest)
    requires forall c :: c in db.candidates ==> db.candidates[c].run in db.reports
    ensures Gate(db, r) && r.status.Approved? ==> DecideOutcome(db, r) == ApprovalOutcome(db, r)
    ensures Gate(db, r) && !r.status.Approved? ==> DecideOutcome(db, r) == Recorded(r.status, None)
    ensures !Gate(db, r) ==>
      && !DecideOutcome(db, r).Recorded? && !DecideOutcome(db, r).Broken?
      && DecideOutcome(db, r) != Blocked({ParsedDocumentAbsent})
  {
    if r.Valid() && r.decision !in db.requests && r.candidate !in db.candidates {
      assert ParsedDocumentAbsent !in {CandidateNotFound};
    }
  }

  lemma CandidateRunsStored(db: Db)
    requires CandidatesOk(db)
    ensures forall c :: c in db.candidates ==> db.candidates[c].run in db.reports
  {
    forall c | c in db.candidates
      ensures db.candidates[c].run in db.reports
    {
      assert CandidateOk(db, c);
    }
  }

  /** Which calls are recorded, for all three statuses; and no exception escapes a sound store. */
  lemma RecordedIff(db: Db, r: ReviewRequest)
    requires DocumentsOk(db) && CandidatesOk(db) && ReportsOk(db) && HeadsOk(db) && FactsOk(db) && DecisionsOk(db)
    ensures Gate(db, r) ==> Recording(db, r) && db.reports[db.candidates[r.candidate].run].report.parsed in db.parsed
    ensures DecideOutcome(db, r).Recorded? <==> Gate(db, r) && (r.status.Approved? ==> Approvable(db, r))
    ensures DecideOutcome(db, r).Recorded? ==>
      DecideOutcome(db, r) == Recorded(r.status, if r.status.Approved? then Some(OfDecision(r.decision)) else None)
    ensures !DecideOutcome(db, r).Broken? && DecideOutcome(db, r) != Blocked({ParsedDocumentAbsent})
  {
    hide ApprovalOutcome, DecideOutcome, Approvable, ReportsOk, CandidatesOk, DocumentsOk, HeadsOk, FactsOk, DecisionsOk;
    CandidateRunsStored(db);
    OutcomeAtGate(db, r);
    if Gate(db, r) {
      FactIdFresh(db, r.decision);
      CandidateReportStored(db, r.candidate);
      if r.status.Approved? { ApprovalAcceptedIff(db, r); }
    }
  }

  lemma RecordGrows(db: Db, r: ReviewRequest, now: Time)
    requires Recording(db, r)
    ensures Grows(db, Commit(db, r, now))
  {
    hide Includes;
    GrowsSelf(db);
    IncludesMore(db.decisions, r.decision, DecisionRowOf(db, r, now));
    IncludesMore(db.requests, r.decision, r);
    if r.status.Approved? {
      IncludesMore(db.facts, OfDecision(r.decision), FactRow(r.decision, ScopeOf(db, r.candidate), ValueAfter(r), r.after.value.unit));
      IncludesMore(db.links, OfDecision(r.decision), LinkOf(db, r, now));
    }
  }

  /** A fact's value is as it was, whatever else a decision adds. */
  lemma CommitKeepsBefore(db: Db, r: ReviewRequest, now: Time, current: Option<Id>)
    requires Recording(db, r) && (current.Some? ==> current.value in db.facts)
    ensures var t := Commit(db, r, now);
      (current.Some? ==> current.value in t.facts) && ValueBefore(t, current) == ValueBefore(db, current)
  {
  }

  lemma NewDecisionOk(db: Db, r: ReviewRequest, now: Time)
    requires Recording(db, r) && HeadsOk(db)
    ensures var t := Commit(db, r, now);
      r.decision in t.decisions && r.decision in t.requests && DecisionOk(t, r.decision)
  {
    CommitKeepsBefore(db, r, now, r.expectedCurrent);
    hide LinkOf, ScopeOf, ValueBefore;
  }

  lemma OldDecisionOk(db: Db, r: ReviewRequest, now: Time, d: Id)
    requires Recording(db, r) && d in db.decisions && d in db.requests && DecisionOk(db, d)
    ensures var t := Commit(db, r, now); d in t.decisions && d in t.requests && DecisionOk(t, d)
  {
    CommitKeepsBefore(db, r, now, db.requests[d].expectedCurrent);
    hide LinkOf, ScopeOf, ValueBefore, DecisionRowOf;
  }

  lemma RecordKeepsDecisions(db: Db, r: ReviewRequest, now: Time)
    requires Recording(db, r) && DecisionsOk(db) && HeadsOk(db)
    ensures DecisionsOk(Commit(db, r, now))
  {
    hide DecisionOk, HeadsOk, LinkOf, ScopeOf, DecisionRowOf;
    var t := Commit(db, r, now);
    forall d | d in t.decisions && d in t.requests
      ensures DecisionOk(t, d)
    {
      if d == r.decision { NewDecisionOk(db, r, now); } else { OldDecisionOk(db, r, now, d); }
    }
  }

  lemma NewFactOk(db: Db, r: ReviewRequest, now: Time)
    requires Recording(db, r) && r.status.Approved?
    requires DocumentsOk(db) && ReportOk(db, db.candidates[r.candidate].run) && Approvable(db, r)
    ensures var t := Commit(db, r, now); OfDecision(r.decision) in t.facts && OfDecision(r.decision) in t.links
    ensures FactOk(Commit(db, r, now), OfDecision(r.decision))
  {
  }

  lemma RecordKeepsFacts(db: Db, r: ReviewRequest, now: Time)
    requires Recording(db, r) && FactsOk(db)
    requires DocumentsOk(db) && ReportOk(db, db.candidates[r.candidate].run)
    requires r.status.Approved? ==> Approvable(db, r)
    ensures FactsOk(Commit(db, r, now))
  {
    hide FactOk, Grows, WellFounded, Approvable, DocumentsOk, ReportOk;
    var t := Commit(db, r, now);
    RecordGrows(db, r, now);
    if r.status.Approved? { NewFactOk(db, r, now); }
    forall f | f in t.facts && f in t.links
      ensures FactOk(t, f)
    {
      if f in db.facts { FactOkGrows(db, t, f); }
    }
  }

  lemma RecordKeepsHeads(db: Db, r: ReviewRequest, now: Time)
    requires Recording(db, r) && HeadsOk(db)
    ensures HeadsOk(Commit(db, r, now))
  {
  }

  /** A chain that gains no fact in a later database is still the whole chain of its scope there. */
  lemma ChainKept(a: Db, b: Db, scope: Scope, chain: seq<Id>)
    requires Grows(a, b) && Chain(a, scope, chain)
    requires scope in b.heads && b.heads[scope] == a.heads[scope]
    requires forall f :: f in b.facts && b.facts[f].scope == scope ==> f in a.facts
    ensures Chain(b, scope, chain)
  {
    LinksKept(a, b, scope, chain);
  }

  lemma LinksKept(a: Db, b: Db, scope: Scope, front: seq<Id>)
    requires Grows(a, b)
    requires forall i :: 0 <= i < |front| ==> ChainLink(a, front, i) && a.facts[front[i]].scope == scope
    ensures forall i :: 0 <= i < |front| ==>
      front[i] in a.facts && front[i] in b.facts && ChainLink(b, front, i) && b.facts[front[i]].scope == scope
  {
    forall i | 0 <= i < |front|
      ensures front[i] in a.facts && front[i] in b.facts && ChainLink(b, front, i) && b.facts[front[i]].scope == scope
    {
      assert ChainLink(a, front, i);
      if i > 0 { assert ChainLink(a, front, i - 1); }
    }
  }

  lemma LinksOfPrefix(db: Db, scope: Scope, front: seq<Id>, fact: Id)
    requires forall i :: 0 <= i < |front| ==> front[i] in db.facts && ChainLink(db, front, i) && db.facts[front[i]].scope == scope
    ensures forall i :: 0 <= i < |front| ==> ChainLink(db, front + [fact], i) && db.facts[(front + [fact])[i]].scope == scope
  {
    forall i | 0 <= i < |front|
      ensures ChainLink(db, front + [fact], i) && db.facts[(front + [fact])[i]].scope == scope
    {
      assert ChainLink(db, front, i);
    }
  }

  /** A chain whose scope gains one fact that replaces the old head is the old chain with the fact appended. */
  lemma ChainExtended(a: Db, b: Db, scope: Scope, front: seq<Id>, fact: Id)
    requires Grows(a, b)
    requires if scope in a.heads then Chain(a, scope, front) else front == []
    requires scope !in a.heads ==> forall f :: f in a.facts ==> a.facts[f].scope != scope
    requires scope in b.heads && b.heads[scope] == fact
    requires forall f :: f in b.facts && b.facts[f].scope == scope ==> f in a.facts || f == fact
    requires fact !in a.facts && fact in b.facts && b.facts[fact].scope == scope
    requires ChainLink(b, front + [fact], |front|)
    ensures Chain(b, scope, front + [fact])
  {
    hide ChainLink;
    var chain := front + [fact];
    LinksKept(a, b, scope, front);
    LinksOfPrefix(b, scope, front, fact);
    forall f | f in b.facts && b.facts[f].scope == scope
      ensures f in chain
    {
      if f == fact { assert chain[|front|] == fact; }
    }
  }

  lemma NewLink(db: Db, front: seq<Id>, r: ReviewRequest, now: Time)
    requires Recording(db, r) && r.status.Approved?
    requires var scope := ScopeOf(db, r.candidate);
      if scope in db.heads then front != [] && db.heads[scope] == front[|front| - 1] && db.heads[scope] in db.facts else front == []
    ensures ChainLink(Commit(db, r, now), front + [OfDecision(r.decision)], |front|)
  {
  }

  lemma NewChain(db: Db, h: History, r: ReviewRequest, now: Time)
    requires Recording(db, r) && r.status.Approved? && HeadsOk(db) && ChainsOk(db, h)
    ensures var scope := ScopeOf(db, r.candidate);
      Chain(Commit(db, r, now), scope, ChainOf(h, scope) + [OfDecision(r.decision)])
  {
    var scope := ScopeOf(db, r.candidate);
    var front, fact := ChainOf(h, scope), OfDecision(r.decision);
    if scope in db.heads { assert Chain(db, scope, front); }
    RecordGrows(db, r, now);
    NewLink(db, front, r, now);
    hide Grows, ChainLink, Chain;
    ChainExtended(db, Commit(db, r, now), scope, front, fact);
  }

  lemma OtherChain(db: Db, h: History, r: ReviewRequest, now: Time, k: Scope)
    requires Recording(db, r) && k in h && k in db.heads && Chain(db, k, h[k])
    requires r.status.Approved? ==> k != ScopeOf(db, r.candidate)
    ensures Chain(Commit(db, r, now), k, h[k])
  {
    hide Grows, ChainLink, Chain;
    RecordGrows(db, r, now);
    ChainKept(db, Commit(db, r, now), k, h[k]);
  }

  lemma RecordKeepsChains(db: Db, h: History, r: ReviewRequest, now: Time)
    requires Recording(db, r) && HeadsOk(db) && ChainsOk(db, h)
    ensures ChainsOk(Commit(db, r, now), Extended(db, h, r))
  {
    hide Chain;
    var g := Extended(db, h, r);
    forall k | k in g
      ensures Chain(Commit(db, r, now), k, g[k])
    {
      if r.status.Approved? && k == ScopeOf(db, r.candidate) {
        NewChain(db, h, r, now);
      } else {
        OtherChain(db, h, r, now, k);
      }
    }
  }

  lemma RecordKeepsPeriods(db: Db, r: ReviewRequest, now: Time)
    requires Recording(db, r) && HeadsOk(db) && PeriodsOk(db)
    requires r.status.Approved? ==> PeriodGuard(db, ScopeOf(db, r.candidate), r.after.value.value) == InOrder
    ensures PeriodsOk(Commit(db, r, now))
  {
    hide Order;
    var t := Commit(db, r, now);
    forall registry, project
      ensures
        var start, end := Scope(registry, project, CreditingPeriodStart), Scope(registry, project, CreditingPeriodEnd);
        start in t.heads && end in t.heads && t.heads[start] in t.facts && t.heads[end] in t.facts ==>
          Order(t.facts[t.heads[start]].value, t.facts[t.heads[end]].value) == InOrder
    {
      var start, end := Scope(registry, project, CreditingPeriodStart), Scope(registry, project, CreditingPeriodEnd);
      if start in t.heads && end in t.heads {
        assert start in db.heads || (r.status.Approved? && start == ScopeOf(db, r.candidate));
        assert end in db.heads || (r.status.Approved? && end == ScopeOf(db, r.candidate));
      }
    }
  }

  lemma CommitKeepsReviewSide(db: Db, h: History, r: ReviewRequest, now: Time)
    requires Recording(db, r) && DocumentsOk(db) && ReportOk(db, db.candidates[r.candidate].run) && ReviewSideOk(db, h)
    requires r.status.Approved? ==> Approvable(db, r)
    ensures ReviewSideOk(Commit(db, r, now), Extended(db, h, r))
  {
    RecordKeepsDecisions(db, r, now);
    RecordKeepsFacts(db, r, now);
    RecordKeepsHeads(db, r, now);
    RecordKeepsChains(db, h, r, now);
    RecordKeepsPeriods(db, r, now);
  }

  lemma CommitOrKeep(db: Db, h: History, r: ReviewRequest, now: Time, recorded: bool)
    requires DocumentsOk(db) && CandidatesOk(db) && ReportsOk(db) && ReviewSideOk(db, h)
    requires recorded ==> Recording(db, r) && db.reports[db.candidates[r.candidate].run].report.parsed in db.parsed
    requires recorded && r.status.Approved? ==> Approvable(db, r)
    ensures
      ReviewSideOk(if recorded then Commit(db, r, now) else db, if recorded then Extended(db, h, r) else h)
  {
    if recorded {
      CandidateReportStored(db, r.candidate);
      CommitKeepsReviewSide(db, h, r, now);
    }
  }

  lemma ReviewParts(db: Db, h: History)
    requires ReviewSideOk(db, h)
    ensures DecisionsOk(db) && FactsOk(db) && HeadsOk(db) && ChainsOk(db, h) && PeriodsOk(db)
  {
  }

  lemma DecideKeepsReviewSide(db: Db, h: History, r: ReviewRequest, now: Time)
    requires DocumentsOk(db) && CandidatesOk(db) && ReportsOk(db) && ReviewSideOk(db, h)
    ensures ReviewSideOk(DecideTables(db, r, now), HistoryAfter(db, h, r))
  {
    hide Commit, Extended, DecideOutcome, Approvable, ReviewSideOk, ReportsOk, CandidatesOk;
    ReviewParts(db, h);
    RecordedIff(db, r);
    CommitOrKeep(db, h, r, now, DecideOutcome(db, r).Recorded?);
  }

  lemma DecideGrows(db: Db, r: ReviewRequest, now: Time)
    requires DocumentsOk(db) && CandidatesOk(db) && ReportsOk(db) && HeadsOk(db) && FactsOk(db) && DecisionsOk(db)
    ensures Grows(db, DecideTables(db, r, now))
  {
    hide Includes, Commit, Approvable, ApprovalOutcome, DocumentsOk, ReportsOk, CandidatesOk, HeadsOk, FactsOk, DecisionsOk;
    GrowsSelf(db);
    RecordedIff(db, r);
    if DecideOutcome(db, r).Recorded? {
      RecordGrows(db, r, now);
    }
  }

  lemma SameImportSide(db: Db, t: Db)
    requires ImportSideOk(db) && SameDocuments(db, t)
    ensures ImportSideOk(t)
  {
    hide CandidatesOk, EvidenceOk;
    CandidatesSame(db, t);
    forall run | run in t.reports
      ensures ReportOk(t, run)
    {
      assert ReportOk(db, run);
    }
  }

  predicate SameDocuments(a: Db, b: Db) {
    && b.sources == a.sources && b.versions == a.versions && b.parsed == a.parsed && b.runs == a.runs
    && SameImports(a, b)
  }

  lemma CommitSameDocuments(db: Db, r: ReviewRequest, now: Time)
    requires r.candidate in db.candidates && db.candidates[r.candidate].run in db.reports
    requires r.status.Approved? ==> r.after.Some?
    ensures SameDocuments(db, Commit(db, r, now))
  {
    hide DecisionRowOf, LinkOf, ScopeOf, ValueAfter;
  }

  lemma RecordedHasCandidate(db: Db, r: ReviewRequest)
    requires DecideOutcome(db, r).Recorded?
    ensures r.candidate in db.candidates && db.candidates[r.candidate].run in db.reports
    ensures r.status.Approved? ==> r.after.Some?
  {
    hide ApprovalOutcome;
  }

  lemma DecideKeepsImportSide(db: Db, r: ReviewRequest, now: Time)
    requires ImportSideOk(db)
    ensures ImportSideOk(DecideTables(db, r, now))
  {
    hide DecideOutcome, Commit, ImportSideOk, SameDocuments;
    if DecideOutcome(db, r).Recorded? {
      RecordedHasCandidate(db, r);
      CommitSameDocuments(db, r, now);
      SameImportSide(db, Commit(db, r, now));
    }
  }
}
