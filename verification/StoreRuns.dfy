/**
 Whole runs of the store: any sequence of document additions, imports and review requests, accepted
 or not, from the empty database on.
 */
module StoreRuns {
  import opened Wrappers
  import opened Fields
  import opened Text
  import opened Calendar
  import opened Domain
  import opened Sorting
  import opened Validation
  import opened Store
  import opened StoreInvariant
  import opened StoreSteps

  datatype Event =
    | AddSource(id: Id, source: SourceDocument)
    | AddVersion(id: Id, version: DocumentVersion)
    | AddParsed(row: ParsedRow)
    | AddRun(run: PipelineRun)             // a run row written by another component
    | ImportValidation(bundle: Import)
    | Review(request: ReviewRequest, now: Time)

  function Step(db: Db, e: Event): Db {
    match e
    case AddSource(id, source) => WithSource(db, id, source)
    case AddVersion(id, version) => WithVersion(db, id, version)
    case AddParsed(row) => WithParsed(db, row)
    case AddRun(run) => WithRun(db, run)
    case ImportValidation(bundle) => if bundle.Valid() then ImportTables(db, bundle) else db
    case Review(request, now) => DecideTables(db, request, now)
  }

  function StepHistory(db: Db, h: History, e: Event): History {
    if e.Review? then HistoryAfter(db, h, e.request) else h
  }

  /** Running `events` on `db`, latest event last. */
  function Run(db: Db, events: seq<Event>): Db {
    if events == [] then db else Step(Run(db, events[..|events| - 1]), events[|events| - 1])
  }

  function RunHistory(db: Db, h: History, events: seq<Event>): History {
    if events == [] then h
    else
      var last := |events| - 1;
      StepHistory(Run(db, events[..last]), RunHistory(db, h, events[..last]), events[last])
  }

  function Reached(events: seq<Event>): Db { Run(Empty(), events) }

  function Chains(events: seq<Event>): History { RunHistory(Empty(), map[], events) }

  lemma DocumentEventOk(db: Db, h: History, e: Event)
    requires Sound(db, h) && !e.ImportValidation? && !e.Review?
    ensures Sound(Step(db, e), h) && Grows(db, Step(db, e))
  {
    hide WithSource, WithVersion, WithParsed, WithRun, Grows, DocumentsOk, ReviewSideOk, ReportsOk, CandidatesOk, EvidenceOk;
    match e
    case AddSource(id, source) => WithSourceOk(db, id, source); DocumentStepOk(db, WithSource(db, id, source), h);
    case AddVersion(id, version) => WithVersionOk(db, id, version); DocumentStepOk(db, WithVersion(db, id, version), h);
    case AddParsed(row) => WithParsedOk(db, row); DocumentStepOk(db, WithParsed(db, row), h);
    case AddRun(run) => WithRunOk(db, run); DocumentStepOk(db, WithRun(db, run), h);
  }

  lemma ImportEventOk(db: Db, h: History, a: Import)
    requires Sound(db, h) && a.Valid()
    ensures Sound(ImportTables(db, a), h) && Grows(db, ImportTables(db, a))
  {
    ImportKeepsImportSide(db, a);
    ImportKeepsReviewSide(db, h, a);
  }

  lemma ReviewEventOk(db: Db, h: History, r: ReviewRequest, now: Time)
    requires Sound(db, h)
    ensures Sound(DecideTables(db, r, now), HistoryAfter(db, h, r)) && Grows(db, DecideTables(db, r, now))
  {
    DecideKeepsImportSide(db, r, now);
    DecideKeepsReviewSide(db, h, r, now);
    DecideGrows(db, r, now);
  }

  lemma StepOk(db: Db, h: History, e: Event)
    requires Sound(db, h)
    ensures Sound(Step(db, e), StepHistory(db, h, e)) && Grows(db, Step(db, e))
  {
    hide DecideTables, ImportTables, HistoryAfter, ImportSideOk, ReviewSideOk;
    match e
    case ImportValidation(bundle) => if bundle.Valid() { ImportEventOk(db, h, bundle); }
    case Review(request, now) => ReviewEventOk(db, h, request, now);
    case _ => DocumentEventOk(db, h, e);
  }

  lemma GrowsTransitive(a: Db, b: Db, c: Db)
    requires Grows(a, b) && Grows(b, c)
    ensures Grows(a, c)
  {
    hide Includes;
    IncludesTransitive(a.sources, b.sources, c.sources);
    IncludesTransitive(a.versions, b.versions, c.versions);
    IncludesTransitive(a.parsed, b.parsed, c.parsed);
    IncludesTransitive(a.runs, b.runs, c.runs);
    IncludesTransitive(a.reports, b.reports, c.reports);
    IncludesTransitive(a.candidates, b.candidates, c.candidates);
    IncludesTransitive(a.evidence, b.evidence, c.evidence);
    IncludesTransitive(a.decisions, b.decisions, c.decisions);
    IncludesTransitive(a.requests, b.requests, c.requests);
    IncludesTransitive(a.facts, b.facts, c.facts);
    IncludesTransitive(a.links, b.links, c.links);
  }

  /** Append-only history: no run alters or removes a stored row. */
  lemma {:induction false} RunOk(db: Db, h: History, events: seq<Event>)
    requires Sound(db, h)
    ensures Sound(Run(db, events), RunHistory(db, h, events)) && Grows(db, Run(db, events))
  {
    hide DecideTables, ImportTables, HistoryAfter, ImportSideOk, ReviewSideOk;
    if events != [] {
      var last := |events| - 1;
      RunOk(db, h, events[..last]);
      var before, g := Run(db, events[..last]), RunHistory(db, h, events[..last]);
      StepOk(before, g, events[last]);
      GrowsTransitive(db, before, Step(before, events[last]));
    }
  }

  lemma ReachedOk(events: seq<Event>)
    ensures Sound(Reached(events), Chains(events))
  {
    EmptyOk();
    RunOk(Empty(), map[], events);
  }

  lemma ReachedSides(events: seq<Event>)
    ensures var db := Reached(events);
      && DocumentsOk(db) && ReportsOk(db) && CandidatesOk(db) && EvidenceOk(db)
      && DecisionsOk(db) && FactsOk(db) && HeadsOk(db) && ChainsOk(db, Chains(events)) && PeriodsOk(db)
  {
    hide Run, RunHistory, ReportsOk, CandidatesOk, EvidenceOk, DecisionsOk, FactsOk, HeadsOk, ChainsOk, PeriodsOk;
    ReachedOk(events);
  }

  // ----- Theorems over every reachable store

  /** Per scope the facts are one unforked chain, rooted at "nothing current" and ending in the head. */
  lemma FactsFormOneChain(events: seq<Event>, scope: Scope)
    ensures var db := Reached(events);
      && (scope in db.heads <==> exists f :: f in db.facts && db.facts[f].scope == scope)
      && (scope in db.heads ==> scope in Chains(events) && Chain(db, scope, Chains(events)[scope]))
  {
    hide Run, RunHistory, Chain, DecisionsOk, FactsOk, PeriodsOk, DocumentsOk, ReportsOk, CandidatesOk, EvidenceOk;
    ReachedSides(events);
    var db := Reached(events);
    if scope in db.heads { assert db.heads[scope] in db.facts; }
  }

  /** No two facts ever replaced the same fact, and no two started from nothing. */
  lemma NoForks(events: seq<Event>, f: Id, g: Id)
    requires f in Reached(events).facts && g in Reached(events).facts && f != g
    requires Reached(events).facts[f].scope == Reached(events).facts[g].scope
    ensures var db := Reached(events);
      && db.facts[f].decision in db.requests && db.facts[g].decision in db.requests
      && Predecessor(db, f) != Predecessor(db, g)
  {
    hide Run, RunHistory;
    var scope := Reached(events).facts[f].scope;
    FactsFormOneChain(events, scope);
    ChainHasNoForks(Reached(events), scope, Chains(events)[scope], f, g);
  }

  lemma LinkAt(db: Db, scope: Scope, chain: seq<Id>, f: Id) returns (i: nat)
    requires Chain(db, scope, chain) && f in db.facts && db.facts[f].scope == scope
    ensures i < |chain| && chain[i] == f && db.facts[f].decision in db.requests
    ensures Predecessor(db, f) == if i == 0 then None else Some(chain[i - 1])
  {
    assert f in chain;
    i :| 0 <= i < |chain| && chain[i] == f;
    assert ChainLink(db, chain, i);
  }

  lemma ChainHasNoForks(db: Db, scope: Scope, chain: seq<Id>, f: Id, g: Id)
    requires Chain(db, scope, chain)
    requires f in db.facts && g in db.facts && f != g && db.facts[f].scope == db.facts[g].scope == scope
    ensures db.facts[f].decision in db.requests && db.facts[g].decision in db.requests
    ensures Predecessor(db, f) != Predecessor(db, g)
  {
    hide ChainLink;
    assert Distinct(chain) by { assert Chain(db, scope, chain); }
    hide Chain;
    var i := LinkAt(db, scope, chain, f);
    var j := LinkAt(db, scope, chain, g);
  }

  /** A fact once canonical keeps its row, its request and its document, and stays well-founded in them. */
  lemma FactsStayWellFounded(events: seq<Event>, later: seq<Event>, f: Id)
    requires f in Reached(events).facts
    ensures var db, was := Run(Reached(events), later), Reached(events);
      && f in db.facts && db.facts[f] == was.facts[f]
      && f in db.links && f in was.links && db.links[f] == was.links[f]
      && db.facts[f].decision in db.requests && was.facts[f].decision in was.requests
      && db.requests[db.facts[f].decision] == was.requests[was.facts[f].decision]
      && var r, row, link := db.requests[db.facts[f].decision], db.facts[f], db.links[f];
      && r.after.Some? && r.after.value.value == row.value && r.after.value.unit == row.unit
      && r.after.value.field == row.scope.field
      && link.parsed in db.parsed && link.parsed in was.parsed && db.parsed[link.parsed] == was.parsed[link.parsed]
      && WellFounded(db.parsed[link.parsed].document, r.after.value)
  {
    hide Run, RunHistory, WellFounded, DecisionsOk, ChainsOk, HeadsOk, PeriodsOk, ReportsOk, CandidatesOk, EvidenceOk;
    ReachedOk(events);
    var was := Reached(events);
    RunOk(was, Chains(events), later);
    assert FactOk(was, f);
    assert FactOk(Run(was, later), f);
  }

  /** Rejected, unresolved or approved: a decision keeps the value that was current when it was made. */
  lemma DecisionsKeepBefore(events: seq<Event>, later: seq<Event>, d: Id)
    requires d in Reached(events).decisions
    ensures var db, was := Run(Reached(events), later), Reached(events);
      && d in db.decisions && d in db.requests && db.decisions[d] == was.decisions[d]
      && match db.requests[d].expectedCurrent
         case None => db.decisions[d].before == JNull
         case Some(f) => f in was.facts && f in db.facts && db.decisions[d].before == db.facts[f].value
  {
    hide Run, RunHistory, FactsOk, ChainsOk, HeadsOk, PeriodsOk, ReportsOk, CandidatesOk, EvidenceOk;
    ReachedOk(events);
    var was := Reached(events);
    RunOk(was, Chains(events), later);
    assert DecisionOk(was, d);
  }

  predicate Amount(value: Json, positive: bool) {
    (value.JInt? || value.JFloat?) && (if positive then 0 < value.AsDec().coef else 0 <= value.AsDec().coef)
  }

  ghost predicate IsDateText(value: Json) { value.JStr? && exists d: Date :: d.Valid() && value.s == DateText(d) }

  predicate IsText(value: Json) { value.JStr? && !Blank(value.s) }

  /** What may be canonical for a field, spelled out; nothing at all for the fields whose contract is open. */
  ghost predicate CanonicalValue(field: Field, value: Json) {
    match field
    case BaselineFormulaPresent | LeApplicableFlag | PeApplicableFlag => value.JBool?
    case ArchivingPeriodYears | CreditingPeriodYears | EfVintageYear | IssuanceCycleCount | VerificationCycleCount =>
      value.JInt? && 0 <= value.n
    case InstalledCapacityMw => Amount(value, true)
    case BeValueTco2e | PeValueTco2e | LeValueTco2e | ErReportedTco2e | ErRecalculatedTco2e | ErRecalcErrorPct
       | ElectricityExportedMwh | ElectricityGeneratedMwh | EfValue => Amount(value, false)
    case CreditingPeriodStart | CreditingPeriodEnd | VerificationPeriodStart | VerificationPeriodEnd | ListedDate
       | RegisteredDate => IsDateText(value)
    case AdditionalityToolUsed | BarrierAnalysisResult | BaselineAssumptionsTable | CommonPracticeResult
       | InvestmentAnalysisResult | MeterCalibrationStatus | MonitoringParametersListed => false
    case _ => IsText(value)
  }

  predicate CanonicalUnit(field: Field, unit: Option<string>) {
    match field
    case InstalledCapacityMw => unit == Some("MW")
    case ElectricityExportedMwh | ElectricityGeneratedMwh => unit == Some("MWh")
    case BeValueTco2e | PeValueTco2e | LeValueTco2e | ErReportedTco2e | ErRecalculatedTco2e => unit == Some("tCO2e")
    case _ => true
  }

  lemma DateTextsAreRead(value: Json)
    ensures value.JStr? && ParseDate(value.s).Some? <==> IsDateText(value)
  {
    if value.JStr? {
      if ParseDate(value.s).Some? { OnlyTextsAreRead(value.s); }
      if d: Date :| d.Valid() && value.s == DateText(d) { DateReadsBack(d); }
    }
  }

  lemma TextsAreCanonical(field: Field, value: Json)
    requires KindOf(field).Words? || KindOf(field).Pending?
    ensures KindFits(KindOf(field), StrictlyPositive(field), value) <==> CanonicalValue(field, value)
  {
    hide Blank, IsDateText, Amount;
  }

  lemma DatesAreCanonical(field: Field, value: Json)
    requires KindOf(field).Day?
    ensures KindFits(KindOf(field), StrictlyPositive(field), value) <==> CanonicalValue(field, value)
  {
    DateTextsAreRead(value);
    hide DateText, ParseDate, IsText, IsDateText, Amount;
  }

  lemma CountsAreCanonical(field: Field, value: Json)
    requires KindOf(field).Flag? || KindOf(field).Count?
    ensures KindFits(KindOf(field), StrictlyPositive(field), value) <==> CanonicalValue(field, value)
  {
    hide IsText, IsDateText, Amount, Json.AsDec;
  }

  lemma NumberFields(field: Field)
    requires KindOf(field).Number?
    ensures || field.BeValueTco2e? || field.PeValueTco2e? || field.LeValueTco2e? || field.ErReportedTco2e? || field.EfValue?
      || field.ErRecalculatedTco2e? || field.ErRecalcErrorPct? || field.ElectricityExportedMwh? || field.ElectricityGeneratedMwh?
      || field.InstalledCapacityMw?
  {
  }

  lemma NumbersAreCanonical(field: Field, value: Json)
    requires KindOf(field).Number?
    ensures KindFits(KindOf(field), StrictlyPositive(field), value) <==> CanonicalValue(field, value)
  {
    NumberFields(field);
    hide IsText, IsDateText, KindOf, Json.AsDec;
  }

  lemma ValuesAreCanonical(field: Field, value: Json)
    ensures KindFits(KindOf(field), StrictlyPositive(field), value) <==> CanonicalValue(field, value)
  {
    hide KindOf, KindFits, CanonicalValue;
    if KindOf(field).Words? || KindOf(field).Pending? {
      TextsAreCanonical(field, value);
    } else if KindOf(field).Day? {
      DatesAreCanonical(field, value);
    } else if KindOf(field).Number? {
      NumbersAreCanonical(field, value);
    } else {
      CountsAreCanonical(field, value);
    }
  }

  lemma UnitsAreCanonical(field: Field, unit: Option<string>)
    ensures (ExpectedUnit(field).Some? ==> unit == ExpectedUnit(field)) <==> CanonicalUnit(field, unit)
  {
  }

  /** The field contracts of the validator and of approvals are exactly these. */
  lemma FitsIffCanonical(field: Field, value: Json, unit: Option<string>)
    ensures ValueFits(field, value, unit) <==> CanonicalValue(field, value) && CanonicalUnit(field, unit)
  {
    ValuesAreCanonical(field, value);
    UnitsAreCanonical(field, unit);
    hide CanonicalValue, CanonicalUnit, KindFits, KindOf, ExpectedUnit;
  }

  /** Every canonical fact has a value and unit of its field's contract. */
  lemma CanonicalValues(events: seq<Event>, f: Id)
    requires f in Reached(events).facts
    ensures var row := Reached(events).facts[f];
      CanonicalValue(row.scope.field, row.value) && CanonicalUnit(row.scope.field, row.unit)
  {
    hide Run, RunHistory, WellFounded, ImportSideOk, ChainsOk, PeriodsOk, DecisionsOk, HeadsOk, FactOk, CanonicalValue, CanonicalUnit, ValueFits;
    ReachedOk(events);
    FactFits(Reached(events), f);
    var row := Reached(events).facts[f];
    FitsIffCanonical(row.scope.field, row.value, row.unit);
  }

  /** Both are texts of dates, and the first is not after the second in the order of texts. */
  predicate DatesInOrder(start: Json, end: Json) {
    start.JStr? && end.JStr? && ParseDate(start.s).Some? && ParseDate(end.s).Some? && StrLeq(start.s, end.s)
  }

  lemma InOrderIsDatesInOrder(start: Json, end: Json)
    ensures Order(start, end) == InOrder <==> DatesInOrder(start, end)
  {
    if start.JStr? && end.JStr? && ParseDate(start.s).Some? && ParseDate(end.s).Some? {
      ReadOrderIsTextOrder(end.s, start.s);
    }
    hide ParseDate, StrLess, DateLess;
  }

  /** Whichever end was approved or replaced first, a crediting period never ends before it starts. */
  lemma CreditingPeriodsInOrder(events: seq<Event>, registry: Registry, project: string)
    ensures var db := Reached(events);
      var start, end := Scope(registry, project, CreditingPeriodStart), Scope(registry, project, CreditingPeriodEnd);
      start in db.heads && end in db.heads ==>
        && db.heads[start] in db.facts && db.heads[end] in db.facts
        && DatesInOrder(db.facts[db.heads[start]].value, db.facts[db.heads[end]].value)
  {
    hide Order, Run, RunHistory, DecisionsOk, FactsOk, ChainsOk, ImportSideOk, DatesInOrder;
    ReachedSides(events);
    var db := Reached(events);
    var start, end := Scope(registry, project, CreditingPeriodStart), Scope(registry, project, CreditingPeriodEnd);
    if start in db.heads && end in db.heads {
      InOrderIsDatesInOrder(db.facts[db.heads[start]].value, db.facts[db.heads[end]].value);
    }
  }

  /** Approving `value` leaves the crediting period of its project in order. */
  ghost predicate KeepsPeriod(db: Db, registry: Registry, project: string, field: Field, value: Json) {
    var start, end := Scope(registry, project, CreditingPeriodStart), Scope(registry, project, CreditingPeriodEnd);
    && (field == CreditingPeriodStart && end in db.heads ==>
          db.heads[end] in db.facts && DatesInOrder(value, db.facts[db.heads[end]].value))
    && (field == CreditingPeriodEnd && start in db.heads ==>
          db.heads[start] in db.facts && DatesInOrder(db.facts[db.heads[start]].value, value))
  }

  lemma GuardKeepsPeriod(db: Db, scope: Scope, value: Json)
    requires HeadsOk(db)
    ensures PeriodGuard(db, scope, value) == InOrder <==> KeepsPeriod(db, scope.registry, scope.project, scope.field, value)
  {
    hide Order, DatesInOrder;
    forall x: Json, y: Json
      ensures Order(x, y) == InOrder <==> DatesInOrder(x, y)
    {
      InOrderIsDatesInOrder(x, y);
    }
    assert Scope(scope.registry, scope.project, CreditingPeriodStart) == scope.(field := CreditingPeriodStart);
    assert Scope(scope.registry, scope.project, CreditingPeriodEnd) == scope.(field := CreditingPeriodEnd);
  }

  /**
   The request is new, names a stored candidate and the fact now current for its registry, project and field;
   an approval also gives that field a value that is well-founded in the report's own document and keeps the
   crediting period in order.
   */
  ghost predicate Recordable(db: Db, r: ReviewRequest) {
    && r.Valid() && r.decision !in db.requests
    && r.candidate in db.candidates && db.candidates[r.candidate].run in db.reports
    && var candidate, row := db.candidates[r.candidate], db.reports[db.candidates[r.candidate].run];
    && var scope := Scope(row.registry, row.project, candidate.field);
    && r.expectedCurrent == (if scope in db.heads then Some(db.heads[scope]) else None)
    && (r.status.Approved? ==>
          && row.report.parsed in db.parsed
          && r.after.value.field == candidate.field
          && WellFounded(db.parsed[row.report.parsed].document, r.after.value)
          && KeepsPeriod(db, row.registry, row.project, candidate.field, r.after.value.value))
  }

  lemma RecordableIff(db: Db, r: ReviewRequest)
    requires HeadsOk(db) && (Gate(db, r) ==> db.reports[db.candidates[r.candidate].run].report.parsed in db.parsed)
    ensures Recordable(db, r) <==> Gate(db, r) && (r.status.Approved? ==> Approvable(db, r))
  {
    hide HeadsOk, PeriodGuard, KeepsPeriod, WellFounded;
    if r.Valid() && r.status.Approved? && r.candidate in db.candidates && db.candidates[r.candidate].run in db.reports {
      GuardKeepsPeriod(db, ScopeOf(db, r.candidate), r.after.value.value);
    }
  }

  /** On every reachable store `decide` records a request exactly in these cases and never breaks. */
  lemma DecideRecordsIff(events: seq<Event>, r: ReviewRequest)
    ensures var db := Reached(events);
      && (DecideOutcome(db, r).Recorded? <==> Recordable(db, r))
      && !DecideOutcome(db, r).Broken? && DecideOutcome(db, r) != Blocked({ParsedDocumentAbsent})
  {
    hide Run, RunHistory, DecideOutcome, Approvable, ReviewSideOk, Recordable, HeadsOk;
    ReachedSides(events);
    RecordedIff(Reached(events), r);
    RecordableIff(Reached(events), r);
  }

  /**
   A recorded decision replayed at any later time changes nothing and names the same fact; another payload
   under the same identifier is refused.
   */
  lemma DecisionReplays(events: seq<Event>, r: ReviewRequest, now: Time, later: seq<Event>, other: ReviewRequest, again: Time)
    requires DecideOutcome(Reached(events), r).Recorded?
    requires other.Valid() && other.decision == r.decision && other != r
    ensures var db := Run(DecideTables(Reached(events), r, now), later);
      && DecideOutcome(db, r) == Reused(DecideOutcome(Reached(events), r).fact)
      && DecideTables(db, r, again) == db
      && DecideOutcome(db, other) == Blocked({DecisionIdConflict})
      && DecideTables(db, other, again) == db
  {
    hide Run, RunHistory, ChainsOk, HeadsOk, PeriodsOk, FactsOk, ImportSideOk;
    hide Approvable, ApprovalOutcome;
    ReachedOk(events);
    var was := Reached(events);
    DecisionStored(was, Chains(events), r, now);
    ReviewEventOk(was, Chains(events), r, now);
    var mid := DecideTables(was, r, now);
    RunOk(mid, HistoryAfter(was, Chains(events), r), later);
    assert DecisionOk(Run(mid, later), r.decision);
  }

  lemma CommittedRequest(db: Db, r: ReviewRequest, now: Time)
    requires Recording(db, r)
    ensures r.decision in Commit(db, r, now).requests && Commit(db, r, now).requests[r.decision] == r
  {
  }

  lemma DecisionStored(db: Db, h: History, r: ReviewRequest, now: Time)
    requires Sound(db, h) && DecideOutcome(db, r).Recorded?
    ensures var t := DecideTables(db, r, now); r.decision in t.requests && t.requests[r.decision] == r
    ensures r.Valid()
    ensures DecideOutcome(db, r).fact == if r.status.Approved? then Some(OfDecision(r.decision)) else None
  {
    hide DecideOutcome, Approvable, Commit, ReviewSideOk, ReportsOk, CandidatesOk, EvidenceOk;
    ReviewParts(db, h);
    RecordedIff(db, r);
    assert DecideTables(db, r, now) == Commit(db, r, now);
    CommittedRequest(db, r, now);
  }

  /** Likewise an import: exact reuse later on, and the stored run identifier admits no other payload. */
  lemma ImportReplays(events: seq<Event>, a: Import, later: seq<Event>, other: Import)
    requires a.Valid() && ImportOutcome(Reached(events), a).Ok?
    requires other.run.id == a.run.id
    ensures var db := Run(ImportTables(Reached(events), a), later);
      && ImportOutcome(db, a) == Ok(true)
      && ImportTables(db, a) == db
      && (ImportOutcome(db, other).Ok? ==> other == a)
      && ImportTables(db, other) == db
  {
    ReachedOk(events);
    var was := Reached(events);
    ImportEventOk(was, Chains(events), a);
    var mid := ImportTables(was, a);
    ImportStored(was, a);
    RunOk(mid, Chains(events), later);
    StoredImportStays(mid, Run(mid, later), a);
  }

  predicate Stored(db: Db, a: Import) {
    && Coherent(a) && Identified(db, a)
    && ChecksFault(db.parsed[a.report.parsed].document, a.report.version, a.report.checks).None?
    && a.run.id in db.reports && db.reports[a.run.id].report == a.report && db.reports[a.run.id].extraction == a.extraction
    && a.run.id in db.runs && db.runs[a.run.id] == a.run
    && a.extractionRun.id in db.runs && db.runs[a.extractionRun.id] == a.extractionRun
  }

  lemma ImportStored(db: Db, a: Import)
    requires ImportOutcome(db, a).Ok?
    ensures Stored(ImportTables(db, a), a)
  {
    hide Coherent, CandidateRows, EvidenceRows, ChecksFault;
  }

  lemma StoredImportStays(a: Db, b: Db, bundle: Import)
    requires Stored(a, bundle) && Grows(a, b)
    ensures ImportOutcome(b, bundle) == Ok(true)
    ensures forall other: Import :: other.run.id == bundle.run.id ==>
      ImportOutcome(b, other) != Ok(false) && (ImportOutcome(b, other).Ok? ==> other == bundle)
  {
    assert Stored(b, bundle);
    forall other: Import | other.run.id == bundle.run.id
      ensures ImportOutcome(b, other) != Ok(false) && (ImportOutcome(b, other).Ok? ==> other == bundle)
    {
      if ImportOutcome(b, other).Ok? {
        assert other.report == bundle.report && other.extraction == bundle.extraction && other.run == bundle.run;
        assert other.extractionRun.id == bundle.extractionRun.id;
      }
    }
  }
}
