/**
 The readiness audit: an eight-way join from a project's canonical heads to the source documents behind
 them, and the twelve dimensions that say which inputs are there.
 */
module Readiness {
  import opened Wrappers
  import opened Fields
  import opened Text
  import opened Domain
  import opened Validation
  import opened Store
  import opened StoreInvariant
  import opened StoreSteps
  import Tables = FactStore

  // ----- The join

  datatype JoinRow = JoinRow(
    factId: Id, fact: FactRow, candidate: Id, request: ReviewRequest, report: Report, extraction: Extraction,
    sourceId: Id, sha256: string, url: string)

  /** The inner joins starting at one head: None where any table has no matching row. */
  function Join(db: Db, scope: Scope): Option<JoinRow> {
    if scope !in db.heads || db.heads[scope] !in db.facts then None
    else
      var fact := db.facts[db.heads[scope]];
      if fact.decision !in db.decisions || fact.decision !in db.requests then None
      else
        var candidate := db.decisions[fact.decision].candidate;
        if candidate !in db.candidates || db.candidates[candidate].run !in db.reports then None
        else
          var row := db.reports[db.candidates[candidate].run];
          if row.parsed !in db.parsed || db.parsed[row.parsed].document.version !in db.versions then None
          else
            var version := db.versions[db.parsed[row.parsed].document.version];
            if version.source !in db.sources then None
            else Some(JoinRow(db.heads[scope], fact, candidate, db.requests[fact.decision], row.report, row.extraction,
                              version.source, version.sha256, db.sources[version.source].url))
  }

  /** The provenance check; where it fails the audit raises. */
  predicate Provenance(row: JoinRow, registry: Registry, project: string) {
    && row.request.status.Approved? && row.request.after.Some?
    && row.request.after.value.field == row.fact.scope.field
    && row.request.decision == row.fact.decision && row.request.candidate == row.candidate
    && PyEqual(row.fact.value, row.request.after.value.value) && row.fact.unit == row.request.after.value.unit
    && row.report.registry == registry && row.report.project == project
  }

  datatype ReadyFact = ReadyFact(
    fact: Id, decision: Id, candidate: Id, value: Json, unit: Option<string>, evidence: seq<Evidence>,
    parsed: Id, version: Id, source: Id, url: string, sha256: string, extractionRun: Id, validationRun: Id,
    extractor: string, extractorVersion: string)

  function Entry(row: JoinRow): ReadyFact
    requires row.request.after.Some?
  {
    var after := row.request.after.value;
    ReadyFact(row.factId, row.fact.decision, row.candidate, after.value, after.unit, after.evidence,
              row.report.parsed, row.report.version, row.sourceId, row.url, row.sha256,
              row.report.extractionRun, row.report.run, row.extraction.extractorName, row.extraction.extractorVersion)
  }

  /** On a sound store every head joins, to itself, and its provenance holds. */
  lemma JoinNeverDrops(db: Db, h: History, scope: Scope)
    requires Sound(db, h) && scope in db.heads
    ensures Join(db, scope).Some? && Join(db, scope).value.factId == db.heads[scope]
    ensures Join(db, scope).value.fact.scope == scope
    ensures Provenance(Join(db, scope).value, scope.registry, scope.project)
  {
    hide Sound, DocumentsOk, ReportsOk, CandidatesOk, EvidenceOk, DecisionsOk, FactsOk, ChainsOk, PeriodsOk;
    SoundParts(db, h);
    HeadFact(db, scope);
    var fact := db.facts[db.heads[scope]];
    ApprovedDecision(db, fact.decision);
    CandidateReportStored(db, db.requests[fact.decision].candidate);
    ReportDocument(db, db.candidates[db.requests[fact.decision].candidate].run);
  }

  lemma SoundParts(db: Db, h: History)
    requires Sound(db, h)
    ensures DocumentsOk(db) && ReportsOk(db) && CandidatesOk(db) && EvidenceOk(db)
    ensures DecisionsOk(db) && FactsOk(db) && HeadsOk(db) && ChainsOk(db, h) && PeriodsOk(db)
  {
  }

  /** What a head says, through its fact and the request behind the fact. */
  lemma HeadFact(db: Db, scope: Scope)
    requires HeadsOk(db) && FactsOk(db) && scope in db.heads
    ensures db.heads[scope] in db.facts && db.facts[db.heads[scope]].scope == scope
    ensures var fact := db.facts[db.heads[scope]];
      && fact.decision in db.requests
      && var r := db.requests[fact.decision];
      && r.status.Approved? && r.after.Some?
      && r.candidate in db.candidates && db.candidates[r.candidate].run in db.reports
      && scope == ScopeOf(db, r.candidate)
      && r.after.value.field == scope.field && fact.value == r.after.value.value && fact.unit == r.after.value.unit
  {
    hide WellFounded;
    assert FactOk(db, db.heads[scope]);
  }

  lemma ApprovedDecision(db: Db, d: Id)
    requires DecisionsOk(db) && d in db.requests
    ensures d in db.decisions && db.requests[d].decision == d && db.decisions[d].candidate == db.requests[d].candidate
    ensures db.requests[d].candidate in db.candidates
  {
    assert DecisionOk(db, d);
  }

  lemma ReportDocument(db: Db, run: Id)
    requires DocumentsOk(db) && run in db.reports && ReportOk(db, run)
    ensures var row := db.reports[run];
      && row.parsed in db.parsed && db.parsed[row.parsed].document.version in db.versions
      && db.versions[db.parsed[row.parsed].document.version].source in db.sources
      && row.report.registry == row.registry && row.report.project == row.project
  {
  }

  // ----- Dimensions

  datatype Rule = Rule(dimension: nat, inputs: seq<Field>)

  datatype Dimension = Dimension(dimension: nat, available: seq<Field>, missing: seq<Field>, factIds: seq<Id>)

  function Present<K(==), V>(inputs: seq<K>, facts: map<K, V>): seq<K> {
    if inputs == [] then []
    else Present(inputs[..|inputs| - 1], facts) + (if inputs[|inputs| - 1] in facts then [inputs[|inputs| - 1]] else [])
  }

  function Absent<K(==), V>(inputs: seq<K>, facts: map<K, V>): seq<K> {
    if inputs == [] then []
    else Absent(inputs[..|inputs| - 1], facts) + (if inputs[|inputs| - 1] in facts then [] else [inputs[|inputs| - 1]])
  }

  lemma {:induction false} PresentIffFact<K, V>(inputs: seq<K>, facts: map<K, V>, f: K)
    ensures f in Present(inputs, facts) <==> f in inputs && f in facts
    ensures f in Absent(inputs, facts) <==> f in inputs && f !in facts
  {
    if inputs != [] {
      var front, last := inputs[..|inputs| - 1], inputs[|inputs| - 1];
      PresentIffFact(front, facts, f);
      assert f in inputs <==> f in front || f == last;
    }
  }

  lemma {:induction false} PresentOrAbsentCount<K, V>(inputs: seq<K>, facts: map<K, V>, f: K)
    ensures multiset(Present(inputs, facts))[f] + multiset(Absent(inputs, facts))[f] == multiset(inputs)[f]
  {
    if inputs != [] {
      var front, last := inputs[..|inputs| - 1], inputs[|inputs| - 1];
      PresentOrAbsentCount(front, facts, f);
      assert inputs == front + [last];
      var p, a := Present(front, facts), Absent(front, facts);
      assert Present(inputs, facts) == p + (if last in facts then [last] else []);
      assert Absent(inputs, facts) == a + (if last in facts then [] else [last]);
      hide Present, Absent;
    }
  }

  /** Every input of a rule is either available or missing, once per mention, by whether it has a fact. */
  lemma PresentOrAbsent<K(!new), V>(inputs: seq<K>, facts: map<K, V>)
    ensures multiset(Present(inputs, facts)) + multiset(Absent(inputs, facts)) == multiset(inputs)
    ensures forall f :: f in Present(inputs, facts) <==> f in inputs && f in facts
    ensures forall f :: f in Absent(inputs, facts) <==> f in inputs && f !in facts
  {
    hide Present, Absent;
    forall f
      ensures multiset(Present(inputs, facts))[f] + multiset(Absent(inputs, facts))[f] == multiset(inputs)[f]
      ensures f in Present(inputs, facts) <==> f in inputs && f in facts
      ensures f in Absent(inputs, facts) <==> f in inputs && f !in facts
    {
      PresentOrAbsentCount(inputs, facts, f);
      PresentIffFact(inputs, facts, f);
    }
  }

  predicate DimensionOf(d: Dimension, rule: Rule, facts: map<Field, ReadyFact>) {
    && d.dimension == rule.dimension
    && d.available == Present(rule.inputs, facts) && d.missing == Absent(rule.inputs, facts)
    && |d.factIds| == |d.available|
    && forall i :: 0 <= i < |d.available| ==> d.available[i] in facts && d.factIds[i] == facts[d.available[i]].fact
  }

  method AuditRule(rule: Rule, facts: map<Field, ReadyFact>) returns (d: Dimension)
    ensures DimensionOf(d, rule, facts)
  {
    var available, missing, ids := [], [], [];
    for i := 0 to |rule.inputs|
      invariant available == Present(rule.inputs[..i], facts) && missing == Absent(rule.inputs[..i], facts)
      invariant |ids| == |available|
      invariant forall k :: 0 <= k < |ids| ==> available[k] in facts && ids[k] == facts[available[k]].fact
    {
      var field := rule.inputs[i];
      assert rule.inputs[..i + 1][..i] == rule.inputs[..i];
      if field in facts {
        available, ids := available + [field], ids + [facts[field].fact];
      } else {
        missing := missing + [field];
      }
    }
    assert rule.inputs[..|rule.inputs|] == rule.inputs;
    d := Dimension(rule.dimension, available, missing, ids);
  }

  // ----- The audit

  datatype Readiness = Readiness(
    registry: Registry, project: string, facts: map<Field, ReadyFact>, dimensions: seq<Dimension>, inScope: bool)

  datatype ReadinessError = BlankProject | BrokenProvenance

  /** The facts of a project, one per head and nothing else. */
  ghost predicate FactsOfHeads(db: Db, registry: Registry, project: string, facts: map<Field, ReadyFact>) {
    forall field ::
      && (field in facts <==> Scope(registry, project, field) in db.heads)
      && (field in facts ==>
            var scope := Scope(registry, project, field);
            && Join(db, scope).Some? && Provenance(Join(db, scope).value, registry, project)
            && facts[field] == Entry(Join(db, scope).value)
            && facts[field].fact == db.heads[scope])
  }

  method CollectFacts(store: Tables.FactStore, registry: Registry, project: string)
    returns (facts: Result<map<Field, ReadyFact>, ReadinessError>)
    requires store.Valid()
    ensures facts.Ok? && FactsOfHeads(store.Tables(), registry, project, facts.value)
  {
    hide Sound, Join, Provenance, Entry;
    ghost var db := store.Tables();
    var found: map<Field, ReadyFact> := map[];
    var pending := set k | k in store.heads && k.registry == registry && k.project == project;
    ghost var seen: set<Scope> := {};
    while pending != {}
      invariant seen + pending == set k | k in store.heads && k.registry == registry && k.project == project
      invariant forall field :: field in found <==> Scope(registry, project, field) in seen
      invariant forall field :: field in found ==>
        && Join(db, Scope(registry, project, field)).Some?
        && Provenance(Join(db, Scope(registry, project, field)).value, registry, project)
        && found[field] == EntryOf(db, registry, project, field)
        && found[field].fact == db.heads[Scope(registry, project, field)]
      decreases pending
    {
      var scope :| scope in pending;
      JoinNeverDrops(db, store.history, scope);
      var row := Join(store.Tables(), scope);
      if row.Some? {
        if !Provenance(row.value, registry, project) {
          return Err(BrokenProvenance);
        }
        EntryFact(row.value, registry, project);
        found := found[row.value.fact.scope.field := Entry(row.value)];
      }
      pending, seen := pending - {scope}, seen + {scope};
    }
    facts := Ok(found);
  }

  function EntryOf(db: Db, registry: Registry, project: string, field: Field): ReadyFact
    requires Join(db, Scope(registry, project, field)).Some?
    requires Provenance(Join(db, Scope(registry, project, field)).value, registry, project)
  {
    Entry(Join(db, Scope(registry, project, field)).value)
  }

  lemma EntryFact(row: JoinRow, registry: Registry, project: string)
    requires Provenance(row, registry, project)
    ensures row.request.after.Some? && Entry(row).fact == row.factId
  {
  }

  /** `project_readiness` under a catalogue of rules: on a sound store it fails for a blank project only. */
  method ProjectReadiness(store: Tables.FactStore, registry: Registry, project: string, policy: seq<Rule>)
    returns (r: Result<Readiness, ReadinessError>)
    requires store.Valid()
    ensures r.Ok? <==> !Blank(project)
    ensures r.Err? ==> r.error.BlankProject?
    ensures r.Ok? ==>
      && r.value.registry == registry && r.value.project == project
      && FactsOfHeads(store.Tables(), registry, project, r.value.facts)
      && |r.value.dimensions| == |policy|
      && (forall i :: 0 <= i < |policy| ==> DimensionOf(r.value.dimensions[i], policy[i], r.value.facts))
      && (r.value.inScope <==> MethodologyName in r.value.facts && r.value.facts[MethodologyName].value == JStr("ACM0002"))
  {
    hide FactsOfHeads, DimensionOf;
    if Blank(project) {
      return Err(BlankProject);
    }
    var collected := CollectFacts(store, registry, project);
    var facts := collected.value;
    var dimensions: seq<Dimension> := [];
    for i := 0 to |policy|
      invariant |dimensions| == i
      invariant forall k :: 0 <= k < i ==> DimensionOf(dimensions[k], policy[k], facts)
    {
      var d := AuditRule(policy[i], facts);
      dimensions := dimensions + [d];
    }
    var inScope := MethodologyName in facts && facts[MethodologyName].value == JStr("ACM0002");
    r := Ok(Readiness(registry, project, facts, dimensions, inScope));
  }

  // ----- What an audited fact is

  /** The value meets the field's contract and every quote is there in the document named beside it. */
  ghost predicate ReadyFactSound(db: Db, field: Field, f: ReadyFact) {
    && ValueFits(field, f.value, f.unit)
    && f.parsed in db.parsed
    && f.evidence != []
    && forall i :: 0 <= i < |f.evidence| ==> Grounded(db.parsed[f.parsed].document, f.evidence[i])
  }

  lemma FactDocument(db: Db, f: Id)
    requires f in db.facts && f in db.links && FactOk(db, f)
    ensures var r := db.requests[db.facts[f].decision];
      && db.reports[db.candidates[r.candidate].run].report.parsed == db.links[f].parsed
      && db.links[f].parsed in db.parsed
      && WellFounded(db.parsed[db.links[f].parsed].document, r.after.value)
  {
    hide WellFounded;
  }

  lemma JoinedFactSound(db: Db, h: History, scope: Scope)
    requires Sound(db, h) && scope in db.heads
    ensures Join(db, scope).Some? && Join(db, scope).value.request.after.Some?
    ensures ReadyFactSound(db, scope.field, Entry(Join(db, scope).value))
  {
    hide Sound, DocumentsOk, ReportsOk, CandidatesOk, EvidenceOk, DecisionsOk, ChainsOk, PeriodsOk, FactOk, ValueFits, Grounded;
    SoundParts(db, h);
    JoinNeverDrops(db, h, scope);
    HeadFact(db, scope);
    var f := db.heads[scope];
    FactFits(db, f);
    FactDocument(db, f);
    ApprovedDecision(db, db.facts[f].decision);
  }

  /** Every audited fact is a well-founded canonical fact of its field. */
  lemma AuditedFactsSound(db: Db, h: History, registry: Registry, project: string, facts: map<Field, ReadyFact>)
    requires Sound(db, h) && FactsOfHeads(db, registry, project, facts)
    ensures forall field :: field in facts ==> ReadyFactSound(db, field, facts[field])
  {
    hide Sound, Join, Entry, Provenance, ReadyFactSound;
    forall field | field in facts
      ensures ReadyFactSound(db, field, facts[field])
    {
      JoinedFactSound(db, h, Scope(registry, project, field));
    }
  }

  /** The entry tells, column by column, the head's fact, its decision, the report behind it and that report's document. */
  ghost predicate Tells(db: Db, scope: Scope, e: ReadyFact) {
    && scope in db.heads && e.fact == db.heads[scope] && e.fact in db.facts
    && e.decision == db.facts[e.fact].decision && e.decision in db.requests
    && e.value == db.facts[e.fact].value && e.unit == db.facts[e.fact].unit
    && var request := db.requests[e.decision];
    && e.candidate == request.candidate && request.after.Some? && e.evidence == request.after.value.evidence
    && e.candidate in db.candidates && e.validationRun == db.candidates[e.candidate].run && e.validationRun in db.reports
    && var report := db.reports[e.validationRun];
    && e.extractionRun == report.extractionRun && e.parsed == report.parsed && e.parsed in db.parsed
    && e.extractor == report.extraction.extractorName && e.extractorVersion == report.extraction.extractorVersion
    && e.version == db.parsed[e.parsed].document.version && e.version in db.versions
    && e.sha256 == db.versions[e.version].sha256
    && e.source == db.versions[e.version].source && e.source in db.sources && e.url == db.sources[e.source].url
  }

  lemma ReportColumns(db: Db, run: Id)
    requires run in db.reports && ReportOk(db, run)
    ensures var row := db.reports[run];
      && row.report.run == run && row.report.extractionRun == row.extractionRun && row.report.parsed == row.parsed
      && row.parsed in db.parsed && row.report.version == db.parsed[row.parsed].document.version
  {
  }

  lemma JoinTells(db: Db, h: History, scope: Scope)
    requires Sound(db, h) && scope in db.heads
    ensures Join(db, scope).Some? && Join(db, scope).value.request.after.Some?
    ensures Tells(db, scope, Entry(Join(db, scope).value))
  {
    hide Sound, DocumentsOk, ReportsOk, CandidatesOk, EvidenceOk, DecisionsOk, FactsOk, ChainsOk, PeriodsOk;
    SoundParts(db, h);
    JoinNeverDrops(db, h, scope);
    HeadFact(db, scope);
    var fact := db.facts[db.heads[scope]];
    ApprovedDecision(db, fact.decision);
    var run := db.candidates[db.requests[fact.decision].candidate].run;
    CandidateReportStored(db, db.requests[fact.decision].candidate);
    ReportDocument(db, run);
    ReportColumns(db, run);
    hide ReportOk, Provenance;
  }

  /** Every audited fact tells its whole provenance. */
  lemma AuditedFactsTell(db: Db, h: History, registry: Registry, project: string, facts: map<Field, ReadyFact>)
    requires Sound(db, h) && FactsOfHeads(db, registry, project, facts)
    ensures forall field :: field in facts ==> Tells(db, Scope(registry, project, field), facts[field])
  {
    hide Sound, Join, Entry, Provenance, Tells;
    forall field | field in facts
      ensures Tells(db, Scope(registry, project, field), facts[field])
    {
      JoinTells(db, h, Scope(registry, project, field));
    }
  }
}
