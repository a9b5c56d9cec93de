/**
 The canonical fact store itself: tables that two transactions, `import_validation` and `decide`,
 change row by row. The database's primary keys and foreign keys are preconditions of the inserts, so
 verifying the transactions shows that no accepted call can violate one.
 */
module FactStore {
  import opened Wrappers
  import opened Domain
  import opened Validation
  import opened Store
  import opened StoreInvariant
  import opened StoreSteps
  import opened StoreRuns

  class FactStore {
    var sources: map<Id, SourceDocument>
    var versions: map<Id, DocumentVersion>
    var parsed: map<Id, ParsedRow>
    var runs: map<Id, PipelineRun>
    var reports: map<Id, ReportRow>
    var candidates: map<Id, CandidateRow>
    var evidence: map<(Id, nat), Evidence>
    var decisions: map<Id, DecisionRow>
    var requests: map<Id, ReviewRequest>
    var facts: map<Id, FactRow>
    var links: map<Id, SourceLink>
    var heads: map<Scope, Id>
    ghost var history: History

    function Tables(): Db
      reads this
    {
      Db(sources, versions, parsed, runs, reports, candidates, evidence, decisions, requests, facts, links, heads)
    }

    ghost predicate Valid()
      reads this
    {
      Sound(Tables(), history)
    }

    constructor ()
      ensures Valid() && Tables() == Empty() && history == map[]
    {
      sources, versions, parsed, runs := map[], map[], map[], map[];
      reports, candidates, evidence := map[], map[], map[];
      decisions, requests, facts, links, heads := map[], map[], map[], map[], map[];
      history := map[];
      new;
      EmptyOk();
    }

    // ----- Inserts, one row each

    method InsertRun(run: PipelineRun)
      requires run.id !in runs
      modifies this`runs
      ensures runs == old(runs)[run.id := run]
    {
      runs := runs[run.id := run];
    }

    method InsertReport(id: Id, row: ReportRow)
      requires id !in reports && id in runs && row.extractionRun in runs && row.parsed in parsed
      modifies this`reports
      ensures reports == old(reports)[id := row]
    {
      reports := reports[id := row];
    }

    method InsertDecision(d: Id, row: DecisionRow)
      requires d !in decisions && row.candidate in candidates
      modifies this`decisions
      ensures decisions == old(decisions)[d := row]
    {
      decisions := decisions[d := row];
    }

    method InsertRequest(d: Id, r: ReviewRequest)
      requires d !in requests && d in decisions
      modifies this`requests
      ensures requests == old(requests)[d := r]
    {
      requests := requests[d := r];
    }

    method InsertFact(f: Id, row: FactRow)
      requires f !in facts && row.decision in decisions
      requires forall g :: g in facts ==> facts[g].decision != row.decision
      modifies this`facts
      ensures facts == old(facts)[f := row]
    {
      facts := facts[f := row];
    }

    method InsertLink(f: Id, link: SourceLink)
      requires f !in links && f in facts
      requires link.version in versions && link.parsed in parsed && link.run in runs
      modifies this`links
      ensures links == old(links)[f := link]
    {
      links := links[f := link];
    }

    /** Insert or update; the head's fact must exist and be the head of no other scope. */
    method SetHead(scope: Scope, f: Id)
      requires f in facts
      requires forall k :: k in heads && k != scope ==> heads[k] != f
      modifies this`heads
      ensures heads == old(heads)[scope := f]
    {
      heads := heads[scope := f];
    }

    method InsertCandidate(c: Id, row: CandidateRow)
      requires c !in candidates && row.run in reports
      requires forall k :: k in candidates ==> !(candidates[k].run == row.run && candidates[k].index == row.index)
      modifies this`candidates
      ensures candidates == old(candidates)[c := row]
    {
      candidates := candidates[c := row];
    }

    method InsertEvidence(c: Id, index: nat, e: Evidence)
      requires (c, index) !in evidence && c in candidates && e.version in versions
      modifies this`evidence
      ensures evidence == old(evidence)[(c, index) := e]
    {
      evidence := evidence[(c, index) := e];
    }

    // ----- Documents

    method AddSource(id: Id, source: SourceDocument) returns (ok: bool)
      requires Valid()
      modifies this`sources
      ensures Valid() && ok == (id !in old(sources)) && Tables() == WithSource(old(Tables()), id, source)
    {
      hide Sound, Grows;
      DocumentEventOk(Tables(), history, Event.AddSource(id, source));
      ok := id !in sources;
      if ok {
        sources := sources[id := source];
      }
    }

    method AddVersion(id: Id, version: DocumentVersion) returns (ok: bool)
      requires Valid()
      modifies this`versions
      ensures Valid() && ok == CanAddVersion(old(Tables()), id, version)
      ensures Tables() == WithVersion(old(Tables()), id, version)
    {
      hide Sound, Grows, CanAddVersion;
      DocumentEventOk(Tables(), history, Event.AddVersion(id, version));
      ok := CanAddVersion(Tables(), id, version);
      if ok {
        versions := versions[id := version];
      }
    }

    method AddParsed(row: ParsedRow) returns (ok: bool)
      requires Valid()
      modifies this`parsed
      ensures Valid() && ok == CanAddParsed(old(Tables()), row) && Tables() == WithParsed(old(Tables()), row)
    {
      hide Sound, Grows, CanAddParsed;
      DocumentEventOk(Tables(), history, Event.AddParsed(row));
      ok := CanAddParsed(Tables(), row);
      if ok {
        parsed := parsed[row.document.id := row];
      }
    }

    // ----- Import

    method FindFault(document: ParsedDocument, version: Id, status: CheckStatus, refs: seq<Evidence>)
      returns (fault: Option<ImportError>)
      ensures fault == CheckFault(document, version, status, refs)
    {
      hide EvidenceFault;
      for j := 0 to |refs|
        invariant CheckFault(document, version, status, refs[..j]).None?
      {
        fault := EvidenceFault(document, version, status, refs[j]);
        assert refs[..j + 1][..j] == refs[..j];
        if fault.Some? {
          CheckFaultStays(document, version, status, refs, j + 1);
          return fault;
        }
      }
      assert refs[..|refs|] == refs;
      return None;
    }

    /** The nested loops over checks and their evidence; the first fault ends them. */
    method FindFirstFault(document: ParsedDocument, report: Report) returns (fault: Option<ImportError>)
      ensures fault == ChecksFault(document, report.version, report.checks)
    {
      hide CheckFault;
      for i := 0 to |report.checks|
        invariant ChecksFault(document, report.version, report.checks[..i]).None?
      {
        fault := FindFault(document, report.version, report.checks[i].status, report.checks[i].observation.evidence);
        assert report.checks[..i + 1][..i] == report.checks[..i];
        if fault.Some? {
          ChecksFaultStays(document, report.version, report.checks, i + 1);
          return fault;
        }
      }
      assert report.checks[..|report.checks|] == report.checks;
      return None;
    }

    /** The evidence rows of one candidate, in order. */
    method InsertReferences(run: Id, index: nat, refs: seq<Evidence>)
      requires OfCandidate(run, index) in candidates
      requires forall k :: k in evidence ==> k.0 != OfCandidate(run, index)
      requires forall j :: 0 <= j < |refs| ==> refs[j].version in versions
      modifies this`evidence
      ensures evidence == old(evidence) + ReferenceRows(run, index, refs)
    {
      ghost var before := evidence;
      hide ReferenceRows;
      NoRows(run, index);
      for j := 0 to |refs|
        invariant evidence == before + ReferenceRows(run, index, refs[..j])
      {
        assert refs[..j + 1] == refs[..j] + [refs[j]];
        ReferenceStep(run, index, refs[..j], refs[j]);
        InReferenceRows(run, index, refs[..j], (OfCandidate(run, index), j));
        UnionUpdate(before, ReferenceRows(run, index, refs[..j]), (OfCandidate(run, index), j), refs[j]);
        InsertEvidence(OfCandidate(run, index), j, refs[j]);
      }
      assert refs[..|refs|] == refs;
    }

    /** The candidate rows of a report, each followed by its evidence rows. */
    method InsertCandidates(run: Id, checks: seq<Check>)
      requires run in reports
      requires forall i :: 0 <= i < |checks| ==> checks[i].index == i
      requires forall i, j :: 0 <= i < |checks| && 0 <= j < |checks[i].observation.evidence| ==>
        checks[i].observation.evidence[j].version in versions
      requires forall c :: c in candidates ==> candidates[c].run != run && (c.OfCandidate? ==> c.run != run)
      requires forall k :: k in evidence ==> (k.0.OfCandidate? ==> k.0.run != run)
      modifies this`candidates, this`evidence
      ensures candidates == old(candidates) + CandidateRows(run, checks)
      ensures evidence == old(evidence) + EvidenceRows(run, checks)
    {
      ghost var c0, e0 := candidates, evidence;
      hide CandidateRows, EvidenceRows, ReferenceRows;
      NoRows(run, 0);
      for i := 0 to |checks|
        invariant candidates == c0 + CandidateRows(run, checks[..i])
        invariant evidence == e0 + EvidenceRows(run, checks[..i])
      {
        var check := checks[i];
        assert checks[..i + 1] == checks[..i] + [check];
        CandidateStep(run, checks[..i], check);
        EvidenceStep(run, checks[..i], check);
        RowsBefore(run, checks[..i]);
        UnionUpdate(c0, CandidateRows(run, checks[..i]), OfCandidate(run, i), RowOf(run, check));
        UnionAssociates(e0, EvidenceRows(run, checks[..i]), ReferenceRows(run, i, check.observation.evidence));
        InsertCandidate(OfCandidate(run, check.index), RowOf(run, check));
        InsertReferences(run, check.index, check.observation.evidence);
      }
      assert checks[..|checks|] == checks;
    }

    /** All inserts of a new import after its extraction run. */
    method InsertImport(a: Import)
      requires a.Valid() && a.run.id == a.report.run
      requires a.run.id !in runs && a.run.id !in reports && a.extractionRun.id in runs
      requires ImportInsertable(Tables(), a)
      modifies this`runs, this`reports, this`candidates, this`evidence
      ensures runs == old(runs)[a.run.id := a.run] && reports == old(reports)[a.run.id := ReportRowOf(a)]
      ensures candidates == old(candidates) + CandidateRows(a.run.id, a.report.checks)
      ensures evidence == old(evidence) + EvidenceRows(a.run.id, a.report.checks)
    {
      InsertRun(a.run);
      InsertReport(a.run.id, ReportRowOf(a));
      hide CandidateRows, EvidenceRows, ReportRowOf;
      InsertCandidates(a.run.id, a.report.checks);
    }

    /** The writing part of an import; on a constraint violation the run inserted first is rolled back. */
    method StoreImport(a: Import) returns (result: Result<bool, ImportError>)
      requires a.Valid() && a.run.id == a.report.run && a.run.id !in reports
      requires ImportInsertable(Tables(), a)
      modifies this`runs, this`reports, this`candidates, this`evidence
      ensures result == NewImportOutcome(old(Tables()), a)
      ensures Tables() == if result == Ok(false) then Imported(old(Tables()), a) else old(Tables())
    {
      hide CandidateRows, EvidenceRows, ReportRowOf;
      var saved := runs;
      if a.extractionRun.id !in runs {
        InsertRun(a.extractionRun);
      } else if runs[a.extractionRun.id] != a.extractionRun {
        return Err(ExtractionRunConflict);
      }
      assert runs == saved[a.extractionRun.id := a.extractionRun];
      if a.run.id in runs {
        runs := saved;
        return Err(ConstraintViolated);
      }
      InsertImport(a);
      return Ok(false);
    }

    method CheckImport(a: Import) returns (refusal: Option<ImportError>)
      ensures refusal == ImportRefusal(Tables(), a)
    {
      hide ChecksFault, Coherent;
      if !Coherent(a) {
        return Some(ExtractionMismatch);
      }
      if !Identified(Tables(), a) {
        return Some(ProvenanceMismatch);
      }
      refusal := FindFirstFault(parsed[a.report.parsed].document, a.report);
    }

    /** One import transaction. */
    method ImportValidation(a: Import) returns (result: Result<bool, ImportError>)
      requires Valid() && a.Valid()
      modifies this`runs, this`reports, this`candidates, this`evidence
      ensures Valid()
      ensures result == ImportOutcome(old(Tables()), a)
      ensures Tables() == ImportTables(old(Tables()), a)
    {
      hide ImportRefusal, Sound, Grows, Imported, NewImportOutcome, ImportInsertable, SamePayloads;
      ghost var db, h := Tables(), history;
      ImportEventOk(db, h, a);
      var refusal := CheckImport(a);
      if refusal.Some? {
        return Err(refusal.value);
      }
      if a.run.id in reports {
        if a.run.id !in runs || a.extractionRun.id !in runs {
          return Err(RunRowMissing);
        }
        return if SamePayloads(Tables(), a) then Ok(true) else Err(RunConflict);
      }
      NewImportInsertable(db, h, a);
      result := StoreImport(a);
    }

    // ----- Decide

    /** `SELECT fact_id ... WHERE decision_id = ?` on the unique decision column. */
    method FindFact(d: Id) returns (fact: Option<Id>)
      requires forall f :: f in facts ==> f == OfDecision(facts[f].decision)
      ensures fact == if OfDecision(d) in facts then Some(OfDecision(d)) else None
    {
      var hits := set f | f in facts && facts[f].decision == d;
      if hits == {} {
        assert OfDecision(d) in facts ==> OfDecision(d) in hits;
        fact := None;
      } else {
        var f :| f in hits;
        fact := Some(f);
      }
    }

    /** Codes of the issues that block an approval. */
    method BlockingCodes(issues: seq<Issue>) returns (codes: set<BlockCode>)
      ensures codes == set c | c in CodesOf(issues) - SOFT_CODES :: Failing(c)
    {
      codes := {};
      for i := 0 to |issues|
        invariant forall c :: Failing(c) in codes <==> c in CodesOf(issues[..i]) - SOFT_CODES
        invariant forall b :: b in codes ==> b.Failing?
      {
        assert issues[..i + 1] == issues[..i] + [issues[i]];
        CodesOfConcat(issues[..i], [issues[i]]);
        assert CodesOf([issues[i]]) == {issues[i].code} by { assert [issues[i]][0] == issues[i]; }
        if issues[i].code !in SOFT_CODES {
          codes := codes + {Failing(issues[i].code)};
        }
      }
      assert issues[..|issues|] == issues;
      forall b | b in codes
        ensures b in (set c | c in CodesOf(issues) - SOFT_CODES :: Failing(c))
      {
        assert b == Failing(b.code);
      }
    }

    /** The checks on an approval; on a refusal the outcome says why. */
    method CheckApproval(r: ReviewRequest) returns (outcome: Outcome)
      requires r.Valid() && r.status.Approved?
      requires r.candidate in candidates && candidates[r.candidate].run in reports
      ensures outcome == ApprovalOutcome(Tables(), r)
    {
      hide ObservationIssues, PeriodGuard;
      var row := reports[candidates[r.candidate].run];
      var after := r.after.value;
      if after.field != candidates[r.candidate].field {
        return Blocked({ReplacementFieldMismatch});
      }
      if row.report.parsed !in parsed {
        return Blocked({ParsedDocumentAbsent});
      }
      var document := parsed[row.report.parsed].document;
      var revised := row.extraction.(observations := [after]);
      var validated := ValidateExtraction(document, revised, Raw(0), REVIEW_THRESHOLD);
      if validated.Err? {
        return Broken;
      }
      var codes := BlockingCodes(validated.value.checks[0].issues);
      assert codes != {} ==> CodesOf(validated.value.checks[0].issues) - SOFT_CODES != {};
      assert forall c :: c in CodesOf(validated.value.checks[0].issues) - SOFT_CODES ==> Failing(c) in codes;
      if codes != {} {
        return Blocked(codes);
      }
      match PeriodGuard(Tables(), ScopeOf(Tables(), r.candidate), after.value)
      case Reversed => return Blocked({DateOrderReversed});
      case Unreadable => return Broken;
      case InOrder => return Recorded(Approved, Some(OfDecision(r.decision)));
    }

    /** The rows an approval adds to the facts, their sources and the heads. */
    method RecordFact(r: ReviewRequest, scope: Scope, link: SourceLink)
      requires r.after.Some? && r.decision in decisions
      requires OfDecision(r.decision) !in facts && OfDecision(r.decision) !in links
      requires forall g :: g in facts ==> facts[g].decision != r.decision
      requires forall k :: k in heads ==> heads[k] in facts
      requires link.version in versions && link.parsed in parsed && link.run in runs
      modifies this`facts, this`links, this`heads
      ensures facts == old(facts)[OfDecision(r.decision) := FactRow(r.decision, scope, ValueAfter(r), r.after.value.unit)]
      ensures links == old(links)[OfDecision(r.decision) := link]
      ensures heads == old(heads)[scope := OfDecision(r.decision)]
    {
      var fact := OfDecision(r.decision);
      InsertFact(fact, FactRow(r.decision, scope, ValueAfter(r), r.after.value.unit));
      InsertLink(fact, link);
      SetHead(scope, fact);
    }

    /** The inserts of a recorded decision. */
    method InsertRows(r: ReviewRequest, now: Time)
      requires Recording(Tables(), r) && Insertable(Tables(), r)
      modifies this`decisions, this`requests, this`facts, this`links, this`heads
      ensures var t := Commit(old(Tables()), r, now);
        decisions == t.decisions && requests == t.requests && facts == t.facts && links == t.links && heads == t.heads
    {
      var scope, link := ScopeOf(Tables(), r.candidate), LinkOf(Tables(), r, now);
      var row := DecisionRowOf(Tables(), r, now);
      assert row.candidate in candidates;
      hide DecisionRowOf, LinkOf, ScopeOf, ValueAfter, Gate;
      InsertDecision(r.decision, row);
      InsertRequest(r.decision, r);
      if r.status.Approved? {
        RecordFact(r, scope, link);
      }
    }

    /** A recorded decision, seen as a change of the whole database. */
    method Record(r: ReviewRequest, now: Time)
      requires Recording(Tables(), r) && Insertable(Tables(), r)
      modifies this`decisions, this`requests, this`facts, this`links, this`heads
      ensures Tables() == Commit(old(Tables()), r, now)
    {
      CommitSameDocuments(Tables(), r, now);
      hide Commit, Recording, Insertable;
      InsertRows(r, now);
    }

    /** One review transaction. */
    method Decide(r: ReviewRequest, now: Time) returns (outcome: Outcome)
      requires Valid()
      modifies this
      ensures Valid()
      ensures outcome == DecideOutcome(old(Tables()), r)
      ensures Tables() == DecideTables(old(Tables()), r, now)
      ensures history == HistoryAfter(old(Tables()), old(history), r)
    {
      hide ApprovalOutcome, Commit, Extended, ImportSideOk, ReviewSideOk, Grows;
      ghost var db, h := Tables(), history;
      ReviewEventOk(db, h, r, now);
      if !r.Valid() {
        return InvalidRequest;
      }
      if r.decision in requests {
        if requests[r.decision] != r {
          return Blocked({DecisionIdConflict});
        }
        FactIds(db, h);
        var fact := FindFact(r.decision);
        return Reused(fact);
      }
      if r.candidate !in candidates {
        return Blocked({CandidateNotFound});
      }
      RowsPresent(db, h, r);
      if CurrentFact(Tables(), ScopeOf(Tables(), r.candidate)) != r.expectedCurrent {
        return Blocked({StaleCurrentFact});
      }
      if r.status.Approved? {
        outcome := CheckApproval(r);
        if !outcome.Recorded? {
          return;
        }
      } else {
        outcome := Recorded(r.status, None);
      }
      Record(r, now);
      history := Extended(db, h, r);
    }
  }

  function ReferenceRows(run: Id, index: nat, refs: seq<Evidence>): map<(Id, nat), Evidence> {
    map j: nat | j < |refs| :: (OfCandidate(run, index), j) := refs[j]
  }

  lemma NoRows(run: Id, index: nat)
    ensures ReferenceRows(run, index, []) == map[] && CandidateRows(run, []) == map[] && EvidenceRows(run, []) == map[]
  {
  }

  lemma UnionUpdate<K, V>(m: map<K, V>, n: map<K, V>, k: K, v: V)
    ensures (m + n)[k := v] == m + n[k := v]
  {
  }

  lemma UnionAssociates<K, V>(l: map<K, V>, m: map<K, V>, n: map<K, V>)
    ensures (l + m) + n == l + (m + n)
  {
  }

  lemma InReferenceRows(run: Id, index: nat, refs: seq<Evidence>, k: (Id, nat))
    ensures k in ReferenceRows(run, index, refs) <==> k.0 == OfCandidate(run, index) && k.1 < |refs|
    ensures k in ReferenceRows(run, index, refs) ==> ReferenceRows(run, index, refs)[k] == refs[k.1]
  {
    if k.0 == OfCandidate(run, index) && k.1 < |refs| {
      var j := k.1;
      assert k == (OfCandidate(run, index), j);
    }
  }

  lemma ReferenceStep(run: Id, index: nat, front: seq<Evidence>, e: Evidence)
    ensures ReferenceRows(run, index, front + [e]) == ReferenceRows(run, index, front)[(OfCandidate(run, index), |front|) := e]
  {
    hide ReferenceRows;
    var whole := ReferenceRows(run, index, front + [e]);
    var parts := ReferenceRows(run, index, front)[(OfCandidate(run, index), |front|) := e];
    forall k: (Id, nat)
      ensures k in whole <==> k in parts
      ensures k in whole && k in parts ==> whole[k] == parts[k]
    {
      InReferenceRows(run, index, front + [e], k);
      InReferenceRows(run, index, front, k);
    }
  }

  lemma InCandidateRows(run: Id, checks: seq<Check>, c: Id)
    ensures c in CandidateRows(run, checks) <==> c.OfCandidate? && c.run == run && c.index < |checks|
    ensures c in CandidateRows(run, checks) ==> CandidateRows(run, checks)[c] == RowOf(run, checks[c.index])
  {
    if c.OfCandidate? && c.run == run && c.index < |checks| {
      var i := c.index;
      assert c == OfCandidate(run, i);
    }
  }

  lemma CandidateStep(run: Id, front: seq<Check>, check: Check)
    ensures CandidateRows(run, front + [check]) == CandidateRows(run, front)[OfCandidate(run, |front|) := RowOf(run, check)]
  {
    hide CandidateRows, RowOf;
    var whole := CandidateRows(run, front + [check]);
    var parts := CandidateRows(run, front)[OfCandidate(run, |front|) := RowOf(run, check)];
    forall c: Id
      ensures c in whole <==> c in parts
      ensures c in whole && c in parts ==> whole[c] == parts[c]
    {
      InCandidateRows(run, front + [check], c);
      InCandidateRows(run, front, c);
    }
  }

  lemma InEvidenceRows(run: Id, checks: seq<Check>, k: (Id, nat))
    ensures k in EvidenceRows(run, checks) <==>
      && k.0.OfCandidate? && k.0.run == run && k.0.index < |checks|
      && k.1 < |checks[k.0.index].observation.evidence|
    ensures k in EvidenceRows(run, checks) ==> EvidenceRows(run, checks)[k] == checks[k.0.index].observation.evidence[k.1]
  {
    if k.0.OfCandidate? && k.0.run == run && k.0.index < |checks| && k.1 < |checks[k.0.index].observation.evidence| {
      var i, j := k.0.index, k.1;
      assert k == (OfCandidate(run, i), j);
    }
  }

  lemma EvidenceStep(run: Id, front: seq<Check>, check: Check)
    ensures EvidenceRows(run, front + [check]) ==
      EvidenceRows(run, front) + ReferenceRows(run, |front|, check.observation.evidence)
  {
    hide EvidenceRows, ReferenceRows;
    var whole := EvidenceRows(run, front + [check]);
    var parts := EvidenceRows(run, front) + ReferenceRows(run, |front|, check.observation.evidence);
    forall k: (Id, nat)
      ensures k in whole <==> k in parts
      ensures k in whole && k in parts ==> whole[k] == parts[k]
    {
      InEvidenceRows(run, front + [check], k);
      InEvidenceRows(run, front, k);
      InReferenceRows(run, |front|, check.observation.evidence, k);
    }
  }

  lemma RowsBefore(run: Id, front: seq<Check>)
    requires forall i :: 0 <= i < |front| ==> front[i].index == i
    ensures forall c :: c in CandidateRows(run, front) ==> c != OfCandidate(run, |front|)
    ensures forall c :: c in CandidateRows(run, front) ==> CandidateRows(run, front)[c].index < |front|
    ensures forall k :: k in EvidenceRows(run, front) ==> k.0 != OfCandidate(run, |front|)
  {
    hide CandidateRows, EvidenceRows;
    forall c | c in CandidateRows(run, front)
      ensures c != OfCandidate(run, |front|) && CandidateRows(run, front)[c].index < |front|
    {
      InCandidateRows(run, front, c);
    }
    forall k | k in EvidenceRows(run, front)
      ensures k.0 != OfCandidate(run, |front|)
    {
      InEvidenceRows(run, front, k);
    }
  }

  /** The keys and foreign keys that the report, candidate and evidence rows of `a` must meet. */
  ghost predicate ImportInsertable(db: Db, a: Import) {
    && a.report.parsed in db.parsed && a.report.extractionRun == a.extractionRun.id
    && (forall i, j :: 0 <= i < |a.report.checks| && 0 <= j < |a.report.checks[i].observation.evidence| ==>
          a.report.checks[i].observation.evidence[j].version in db.versions)
    && (forall c :: c in db.candidates ==> db.candidates[c].run != a.run.id && (c.OfCandidate? ==> c.run != a.run.id))
    && (forall k :: k in db.evidence ==> (k.0.OfCandidate? ==> k.0.run != a.run.id))
  }

  lemma EvidenceVersionsStored(db: Db, a: Import)
    requires DocumentsOk(db) && ImportRefusal(db, a).None?
    ensures a.report.parsed in db.parsed && a.report.extractionRun == a.extractionRun.id && a.run.id == a.report.run
    ensures forall i, j :: 0 <= i < |a.report.checks| && 0 <= j < |a.report.checks[i].observation.evidence| ==>
      a.report.checks[i].observation.evidence[j].version in db.versions
  {
    ChecksFaultIff(db.parsed[a.report.parsed].document, a.report.version, a.report.checks);
    forall i, j | 0 <= i < |a.report.checks| && 0 <= j < |a.report.checks[i].observation.evidence|
      ensures a.report.checks[i].observation.evidence[j].version in db.versions
    {
      assert CheckAcceptable(db.parsed[a.report.parsed].document, a.report.version, a.report.checks[i]);
    }
  }

  lemma NewImportInsertable(db: Db, h: History, a: Import)
    requires Sound(db, h) && a.Valid() && ImportRefusal(db, a).None? && a.run.id !in db.reports
    ensures ImportInsertable(db, a) && a.run.id == a.report.run
  {
    hide ReviewSideOk, ReportsOk;
    EvidenceVersionsStored(db, a);
    hide ImportRefusal, DocumentsOk;
    forall c | c in db.candidates
      ensures db.candidates[c].run != a.run.id && (c.OfCandidate? ==> c.run != a.run.id)
    {
      assert CandidateOk(db, c);
    }
    forall k | k in db.evidence
      ensures k.0.OfCandidate? ==> k.0.run != a.run.id
    {
      assert EvidenceRowOk(db, k);
    }
  }

  /** What the database will check when the rows of `r` are inserted. */
  ghost predicate Insertable(db: Db, r: ReviewRequest) {
    && r.candidate in db.candidates && db.candidates[r.candidate].run in db.reports
    && OfDecision(r.decision) !in db.facts && OfDecision(r.decision) !in db.links
    && (forall g :: g in db.facts ==> db.facts[g].decision != r.decision)
    && (forall k :: k in db.heads ==> db.heads[k] in db.facts)
    && var link := LinkOf(db, r, 0);
    link.version in db.versions && link.parsed in db.parsed && link.run in db.runs
  }

  lemma FactIds(db: Db, h: History)
    requires Sound(db, h)
    ensures forall f :: f in db.facts ==> f == OfDecision(db.facts[f].decision)
  {
    hide ImportSideOk, FactsOk, DecisionsOk, HeadsOk, ChainsOk, PeriodsOk;
    forall f | f in db.facts
      ensures f == OfDecision(db.facts[f].decision)
    {
      FactDecision(db, f);
    }
  }

  lemma OtherDecisions(db: Db, d: Id)
    requires FactsOk(db) && d !in db.requests
    ensures forall g :: g in db.facts ==> db.facts[g].decision != d
  {
    hide FactsOk;
    forall g | g in db.facts
      ensures db.facts[g].decision != d
    {
      FactDecision(db, g);
    }
  }

  lemma ReportTargets(db: Db, run: Id)
    requires DocumentsOk(db) && run in db.reports && ReportOk(db, run)
    ensures db.reports[run].extraction.version in db.versions && db.reports[run].report.parsed in db.parsed && run in db.runs
  {
  }

  lemma RowsPresent(db: Db, h: History, r: ReviewRequest)
    requires Sound(db, h) && r.candidate in db.candidates
    ensures db.candidates[r.candidate].run in db.reports
    ensures Gate(db, r) ==> Recording(db, r) && Insertable(db, r)
  {
    hide DecideOutcome, Approvable, EvidenceOk, ReviewSideOk, ReportsOk, CandidatesOk, DecisionsOk, FactsOk, ReportOk, DocumentsOk;
    ReviewParts(db, h);
    CandidateReportStored(db, r.candidate);
    ReportTargets(db, db.candidates[r.candidate].run);
    RecordedIff(db, r);
    if Gate(db, r) { OtherDecisions(db, r.decision); }
  }
}
