/**
 The inductive invariant of the review tables: foreign keys, the agreement of every stored copy, one
 unforked chain of facts per scope, and the meaning of a canonical fact.
 */
module StoreInvariant {
  import opened Wrappers
  import opened Fields
  import opened Domain
  import opened Validation
  import opened Store

  ghost predicate DocumentsOk(db: Db) {
    && (forall v :: v in db.versions ==> db.versions[v].source in db.sources)
    && (forall p :: p in db.parsed ==>
          db.parsed[p].document.id == p && db.parsed[p].document.Valid() && db.parsed[p].document.version in db.versions)
    && (forall v, w :: v in db.versions && w in db.versions && v != w ==>
          db.versions[v].source != db.versions[w].source || db.versions[v].sha256 != db.versions[w].sha256)
    && (forall p, q :: p in db.parsed && q in db.parsed && p != q ==>
          db.parsed[p].document.version != db.parsed[q].document.version || db.parsed[p].configuration != db.parsed[q].configuration)
  }

  /** The report is of a succeeded validation of the stored document, over what a succeeded extraction read from it. */
  ghost predicate RunsOk(db: Db, run: Id)
    requires run in db.reports
  {
    var row := db.reports[run];
    && run in db.runs && row.extractionRun in db.runs && row.parsed in db.parsed
    && db.runs[run].id == run && db.runs[run].status.Succeeded? && db.runs[run].stage.QualityValidated?
    && db.runs[row.extractionRun].id == row.extractionRun && db.runs[row.extractionRun].status.Succeeded?
    && (db.runs[row.extractionRun].stage.BaselineExtracted? || db.runs[row.extractionRun].stage.LlmExtracted?)
    && db.runs[run].inputHash == db.runs[row.extractionRun].inputHash == OfDocument(db.parsed[row.parsed].document)
    && row.report.version in db.versions && db.versions[row.report.version].source in db.sources
    && db.sources[db.versions[row.report.version].source].registry == row.registry
    && db.sources[db.versions[row.report.version].source].project == row.project
    && |row.extraction.observations| == |row.report.checks|
    && forall i :: 0 <= i < |row.report.checks| ==> row.extraction.observations[i].Same(row.report.checks[i].observation)
  }

  /** A stored report, its stored extraction and the columns copied from them tell one story. */
  ghost predicate ReportOk(db: Db, run: Id)
    requires run in db.reports
  {
    var row := db.reports[run];
    && row.report.Valid() && row.extraction.Valid() && RunsOk(db, run)
    && run in db.runs && row.extractionRun in db.runs && row.parsed in db.parsed
    && row.report.run == run && row.report.extractionRun == row.extractionRun && row.report.parsed == row.parsed
    && row.extraction.parsed == row.parsed && row.extraction.run == Some(row.extractionRun)
    && row.report.version == row.extraction.version == db.parsed[row.parsed].document.version
    && row.registry == row.report.registry == row.extraction.registry
    && row.project == row.report.project == row.extraction.project
  }

  ghost predicate ReportsOk(db: Db) { forall run :: run in db.reports ==> ReportOk(db, run) }

  /** Candidates are exactly the checks of the stored reports. */
  ghost predicate CandidateOk(db: Db, c: Id)
    requires c in db.candidates
  {
    var row := db.candidates[c];
    && row.run in db.reports && row.index < |db.reports[row.run].report.checks|
    && c == OfCandidate(row.run, row.index)
    && var check := db.reports[row.run].report.checks[row.index];
    && row.field == check.observation.field && row.value == check.observation.value && row.unit == check.observation.unit
    && row.status == check.status && row.issues == check.issues
  }

  ghost predicate CandidatesOk(db: Db) {
    && (forall c :: c in db.candidates ==> CandidateOk(db, c))
    && (forall run, i :: run in db.reports && 0 <= i < |db.reports[run].report.checks| ==>
          OfCandidate(run, i) in db.candidates)
  }

  function Refs(db: Db, run: Id, i: nat): seq<Evidence>
    requires run in db.reports && i < |db.reports[run].report.checks|
  {
    db.reports[run].report.checks[i].observation.evidence
  }

  ghost predicate EvidenceRowOk(db: Db, k: (Id, nat))
    requires k in db.evidence
  {
    && k.0.OfCandidate? && k.0.run in db.reports && k.0.index < |db.reports[k.0.run].report.checks|
    && k.1 < |Refs(db, k.0.run, k.0.index)| && db.evidence[k] == Refs(db, k.0.run, k.0.index)[k.1]
  }

  /** Evidence rows are exactly the references of the candidates' observations. */
  ghost predicate EvidenceOk(db: Db) {
    && (forall k :: k in db.evidence ==> EvidenceRowOk(db, k))
    && (forall run, i: nat, j: nat | run in db.reports && i < |db.reports[run].report.checks| && j < |Refs(db, run, i)| ::
          (OfCandidate(run, i), j) in db.evidence)
  }

  /** A decision of any outcome is its request, with the value of the fact that was current when it was made. */
  ghost predicate DecisionOk(db: Db, d: Id)
    requires d in db.decisions && d in db.requests
  {
    var row, r := db.decisions[d], db.requests[d];
    && r.Valid() && r.decision == d
    && row.candidate == r.candidate && r.candidate in db.candidates
    && row.reviewer == r.reviewer && row.reason == r.reason && row.status == r.status && row.after == ValueAfter(r)
    && (r.status.Approved? <==> OfDecision(d) in db.facts)
    && (r.expectedCurrent.Some? ==> r.expectedCurrent.value in db.facts)
    && row.before == ValueBefore(db, r.expectedCurrent)
  }

  ghost predicate DecisionsOk(db: Db) {
    && db.decisions.Keys == db.requests.Keys
    && (forall d :: d in db.decisions && d in db.requests ==> DecisionOk(db, d))
  }

  /**
   A canonical fact is the evidenced value one approved request asked for, in the scope of its candidate,
   linked to the very document its evidence quotes.
   */
  ghost predicate FactOk(db: Db, f: Id)
    requires f in db.facts && f in db.links
  {
    var row, link := db.facts[f], db.links[f];
    && f == OfDecision(row.decision) && row.decision in db.requests
    && var r := db.requests[row.decision];
    && r.status.Approved? && r.after.Some?
    && r.candidate in db.candidates && db.candidates[r.candidate].run in db.reports
    && var report := db.reports[db.candidates[r.candidate].run];
    && row.scope == Scope(report.registry, report.project, db.candidates[r.candidate].field)
    && r.after.value.field == row.scope.field && row.value == r.after.value.value && row.unit == r.after.value.unit
    && link.version == report.extraction.version && link.parsed == report.report.parsed && link.run == db.candidates[r.candidate].run
    && link.parsed in db.parsed && link.version in db.versions && link.run in db.runs
    && db.parsed[link.parsed].document.version == link.version
    && WellFounded(db.parsed[link.parsed].document, r.after.value)
  }

  ghost predicate FactsOk(db: Db) {
    && db.facts.Keys == db.links.Keys
    && (forall f :: f in db.facts && f in db.links ==> FactOk(db, f))
  }

  ghost predicate HeadsOk(db: Db) {
    && (forall k :: k in db.heads ==> db.heads[k] in db.facts && db.facts[db.heads[k]].scope == k)
    && (forall f :: f in db.facts ==> db.facts[f].scope in db.heads)
  }

  // ----- Chains

  type History = map<Scope, seq<Id>>

  /** What the approved request behind `f` named as the current fact. */
  function Predecessor(db: Db, f: Id): Option<Id>
    requires f in db.facts && db.facts[f].decision in db.requests
  {
    db.requests[db.facts[f].decision].expectedCurrent
  }

  ghost predicate ChainLink(db: Db, chain: seq<Id>, i: nat)
    requires i < |chain|
  {
    && chain[i] in db.facts
    && db.facts[chain[i]].decision in db.requests && db.facts[chain[i]].decision in db.decisions
    && Predecessor(db, chain[i]) == (if i == 0 then None else Some(chain[i - 1]))
    && db.decisions[db.facts[chain[i]].decision].before ==
         (if i == 0 || chain[i - 1] !in db.facts then JNull else db.facts[chain[i - 1]].value)
  }

  /**
   `chain` lists every fact of `scope` once, oldest first: the first replaced nothing, each later one
   replaced its neighbour and recorded that neighbour's value as the value before, the last is the head.
   */
  ghost predicate Chain(db: Db, scope: Scope, chain: seq<Id>) {
    && chain != [] && scope in db.heads && db.heads[scope] == chain[|chain| - 1]
    && (forall i, j :: 0 <= i < j < |chain| ==> chain[i] != chain[j])
    && (forall i :: 0 <= i < |chain| ==> ChainLink(db, chain, i) && db.facts[chain[i]].scope == scope)
    && (forall f :: f in db.facts && db.facts[f].scope == scope ==> f in chain)
  }

  ghost predicate ChainsOk(db: Db, h: History) {
    && h.Keys == db.heads.Keys
    && (forall k :: k in h ==> Chain(db, k, h[k]))
  }

  // ----- Crediting periods

  ghost predicate PeriodsOk(db: Db) {
    forall registry, project ::
      var start, end := Scope(registry, project, CreditingPeriodStart), Scope(registry, project, CreditingPeriodEnd);
      start in db.heads && end in db.heads && db.heads[start] in db.facts && db.heads[end] in db.facts ==>
        Order(db.facts[db.heads[start]].value, db.facts[db.heads[end]].value) == InOrder
  }

  /** What imports rely on. */
  ghost predicate ImportSideOk(db: Db) {
    DocumentsOk(db) && ReportsOk(db) && CandidatesOk(db) && EvidenceOk(db)
  }

  /** What decisions rely on. */
  ghost predicate ReviewSideOk(db: Db, h: History) {
    DecisionsOk(db) && FactsOk(db) && HeadsOk(db) && ChainsOk(db, h) && PeriodsOk(db)
  }

  /** The invariant of every reachable store and its chains. */
  ghost predicate Sound(db: Db, h: History) { ImportSideOk(db) && ReviewSideOk(db, h) }

  function ChainOf(h: History, scope: Scope): seq<Id> { if scope in h then h[scope] else [] }

  /** The chains after a decision: an approval extends the chain of its scope by the new fact. */
  function Extended(db: Db, h: History, r: ReviewRequest): History
    requires r.candidate in db.candidates && db.candidates[r.candidate].run in db.reports
  {
    var scope := ScopeOf(db, r.candidate);
    if r.status.Approved? then h[scope := ChainOf(h, scope) + [OfDecision(r.decision)]] else h
  }

  function HistoryAfter(db: Db, h: History, r: ReviewRequest): History {
    if DecideOutcome(db, r).Recorded? then Extended(db, h, r) else h
  }

  // ----- Tables only grow

  ghost predicate Includes<K, V>(m: map<K, V>, n: map<K, V>) {
    forall k :: k in m ==> k in n && n[k] == m[k]
  }

  /** Every row ever written is still there, unaltered; a scope that has a head keeps having one. */
  ghost predicate Grows(a: Db, b: Db) {
    && Includes(a.sources, b.sources) && Includes(a.versions, b.versions) && Includes(a.parsed, b.parsed)
    && Includes(a.runs, b.runs) && Includes(a.reports, b.reports) && Includes(a.candidates, b.candidates)
    && Includes(a.evidence, b.evidence) && Includes(a.decisions, b.decisions) && Includes(a.requests, b.requests)
    && Includes(a.facts, b.facts) && Includes(a.links, b.links)
    && a.heads.Keys <= b.heads.Keys
  }
}
