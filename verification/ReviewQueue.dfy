/**
 The human review queue and its metrics: read-only projections of the store. The order of rows with one
 observation index and, between decisions made at the same instant, the choice of the latest one are the
 database's.
 */
module ReviewQueue {
  import opened Wrappers
  import opened Fields
  import opened Text
  import opened Domain
  import opened Validation
  import opened Store
  import opened StoreInvariant
  import opened Rates
  import opened Sorting
  import StoreRuns

  // ----- Priority

  datatype Level = Critical | High | Normal | Low

  datatype Reason =
    | MechanicalRejection | MissingCandidateValue | CriticalIssue | HighRiskIssue | HumanSemanticReview | ManualReviewRequired

  predicate StartsWith(s: string, prefix: string) { |prefix| <= |s| && s[..|prefix|] == prefix }

  predicate CriticalCode(c: Code) {
    || c.CandidateConflict? || c.EvidencePageInvalid? || c.EvidenceQuoteMissing? || c.EvidenceVersionInvalid?
    || c.EvidenceOffsetsInvalid? || c.FieldTypeInvalid? || c.NumericRangeInvalid?
  }

  predicate HighRiskCode(c: Code) {
    || c.DateFormatUnresolved? || c.DateCalendarInvalid? || c.EvidenceOffsetsMissing? || c.EvidenceOffsetsInvalid?
    || c.NumericRangeInvalid? || c.UnitUnverified? || c.FieldTypeInvalid?
    || (c.OtherCode? && (StartsWith(c.name, "date_") || StartsWith(c.name, "evidence_offsets_")
                         || StartsWith(c.name, "numeric_") || StartsWith(c.name, "unit_") || StartsWith(c.name, "field_type_")))
  }

  predicate NormalCode(c: Code) {
    || c.ConfidenceBelowThreshold? || c.ConfidenceUnknown? || c.FieldContractPending? || c.SemanticSupportPending?
    || c.AmbiguousAbstention?
  }

  function LevelOf(status: CheckStatus, codes: set<Code>): Level {
    if !status.NeedsReview? || (exists c :: c in codes && CriticalCode(c)) then Critical
    else if exists c :: c in codes && HighRiskCode(c) then High
    else if exists c :: c in codes && NormalCode(c) then Normal
    else Low
  }

  function Score(level: Level): nat {
    match level case Critical => 100 case High => 70 case Normal => 40 case Low => 20
  }

  method Priority(status: CheckStatus, issues: seq<Issue>) returns (level: Level, score: nat, reasons: seq<Reason>)
    ensures level == LevelOf(status, CodesOf(issues)) && score == Score(level)
    ensures score == if level.Critical? then 100 else if level.High? then 70 else if level.Normal? then 40 else 20
    ensures reasons != []
    ensures CriticalIssue in reasons <==> exists c :: c in CodesOf(issues) && CriticalCode(c)
    ensures HighRiskIssue in reasons <==> exists c :: c in CodesOf(issues) && HighRiskCode(c)
    ensures HumanSemanticReview in reasons <==> exists c :: c in CodesOf(issues) && NormalCode(c)
    ensures ManualReviewRequired in reasons <==> level.Low?
  {
    var codes := CodesOf(issues);
    reasons := [];
    if status.RejectedCheck? { reasons := reasons + [MechanicalRejection]; }
    if status.MissingValue? { reasons := reasons + [MissingCandidateValue]; }
    if exists c :: c in codes && CriticalCode(c) { reasons := reasons + [CriticalIssue]; }
    if exists c :: c in codes && HighRiskCode(c) { reasons := reasons + [HighRiskIssue]; }
    if exists c :: c in codes && NormalCode(c) { reasons := reasons + [HumanSemanticReview]; }
    hide CriticalCode, HighRiskCode, NormalCode;
    if reasons == [] { reasons := reasons + [ManualReviewRequired]; }
    if CriticalIssue in reasons || MechanicalRejection in reasons || MissingCandidateValue in reasons {
      level, score := Critical, 100;
    } else if HighRiskIssue in reasons {
      level, score := High, 70;
    } else if HumanSemanticReview in reasons {
      level, score := Normal, 40;
    } else {
      level, score := Low, 20;
    }
  }

  /** The code as the validator writes it. */
  function NameOf(c: Code): string {
    match c
    case EvidenceVersionInvalid => "evidence_version_invalid"
    case EvidencePageInvalid => "evidence_page_invalid"
    case EvidenceQuoteMissing => "evidence_quote_missing"
    case EvidenceOffsetsMissing => "evidence_offsets_missing"
    case EvidenceOffsetsInvalid => "evidence_offsets_invalid"
    case AmbiguousAbstention => "ambiguous_abstention"
    case FieldContractPending => "field_contract_pending"
    case FieldTypeInvalid => "field_type_invalid"
    case NumericRangeInvalid => "numeric_range_invalid"
    case NegativeValueRequiresDomainRule => "negative_value_requires_domain_rule"
    case DateFormatUnresolved => "date_format_unresolved"
    case DateCalendarInvalid => "date_calendar_invalid"
    case UnitUnverified => "unit_unverified"
    case ConfidenceUnknown => "confidence_unknown"
    case ConfidenceBelowThreshold => "confidence_below_threshold"
    case CandidateConflict => "candidate_conflict"
    case SemanticSupportPending => "semantic_support_pending"
    case OtherCode(name) => name
  }

  predicate HasPrefix(s: string) {
    || StartsWith(s, "date_") || StartsWith(s, "evidence_offsets_") || StartsWith(s, "numeric_") || StartsWith(s, "unit_")
    || StartsWith(s, "field_type_")
  }

  lemma OtherInitial(s: string)
    requires s != "" && s[0] !in {'d', 'e', 'n', 'u', 'f'}
    ensures !HasPrefix(s)
  {
  }

  lemma PlainNames(c: Code)
    requires !HighRiskCode(c) && !c.OtherCode?
    ensures !HasPrefix(NameOf(c))
  {
    hide HasPrefix;
    match c
    case EvidenceVersionInvalid => EvidenceNames(c);
    case EvidencePageInvalid => EvidenceNames(c);
    case EvidenceQuoteMissing => EvidenceNames(c);
    case FieldContractPending => FieldContractName();
    case NegativeValueRequiresDomainRule => NegativeName();
    case AmbiguousAbstention => OtherInitial(NameOf(c));
    case ConfidenceUnknown => OtherInitial(NameOf(c));
    case ConfidenceBelowThreshold => OtherInitial(NameOf(c));
    case CandidateConflict => OtherInitial(NameOf(c));
    case SemanticSupportPending => OtherInitial(NameOf(c));
  }

  lemma FieldContractName()
    ensures !HasPrefix("field_contract_pending")
  {
    assert "field_contract_pending"[6] == 'c' && "field_type_"[6] == 't' && "field_contract_pending"[0] == 'f';
  }

  lemma NegativeName()
    ensures !HasPrefix("negative_value_requires_domain_rule")
  {
    assert |"negative_value_requires_domain_rule"| == 35;
    assert "negative_value_requires_domain_rule"[0] == 'n' && "negative_value_requires_domain_rule"[1] == 'e';
    assert "numeric_"[1] == 'u';
  }

  lemma PrefixedNames(c: Code)
    requires HighRiskCode(c) && !c.OtherCode?
    ensures HasPrefix(NameOf(c))
  {
    var s := NameOf(c);
    match c
    case EvidenceOffsetsMissing => assert StartsWith(s, "evidence_offsets_");
    case EvidenceOffsetsInvalid => assert StartsWith(s, "evidence_offsets_");
    case FieldTypeInvalid => assert StartsWith(s, "field_type_");
    case NumericRangeInvalid => assert StartsWith(s, "numeric_");
    case DateFormatUnresolved => assert StartsWith(s, "date_");
    case DateCalendarInvalid => assert StartsWith(s, "date_");
    case UnitUnverified => assert StartsWith(s, "unit_");
  }

  /** High risk goes by the prefixes of the names, for codes of other validators too. */
  lemma HighRiskByName(c: Code)
    ensures HighRiskCode(c) <==> HasPrefix(NameOf(c))
  {
    if !c.OtherCode? {
      hide HasPrefix, NameOf;
      if HighRiskCode(c) { PrefixedNames(c); } else { PlainNames(c); }
    }
  }

  lemma EvidenceNames(c: Code)
    requires c.EvidenceVersionInvalid? || c.EvidencePageInvalid? || c.EvidenceQuoteMissing?
    ensures !HasPrefix(NameOf(c))
  {
    assert "evidence_offsets_"[9] == 'o' && NameOf(c)[9] in {'v', 'p', 'q'} && NameOf(c)[0] == 'e';
  }

  /** Another issue never lowers a candidate's place. */
  lemma MoreIssuesNeverLower(status: CheckStatus, codes: set<Code>, more: set<Code>)
    requires codes <= more
    ensures Score(LevelOf(status, codes)) <= Score(LevelOf(status, more))
  {
    hide CriticalCode, HighRiskCode, NormalCode;
  }

  /**
   For checks the validator made: critical is exactly "not merely in need of review, or in conflict with
   another candidate", high is a date, a unit or offsets to be settled, and the low level is never used.
   */
  lemma PriorityOfValidated(parsed: ParsedDocument, observations: seq<Observation>, threshold: real, i: nat)
    requires i < |observations| && forall k :: 0 <= k < |observations| ==> observations[k].Valid()
    ensures var check := CheckOf(parsed, observations, threshold, i);
      var level := LevelOf(check.status, CodesOf(check.issues));
      && (level.Critical? <==> !check.status.NeedsReview? || CandidateConflict in CodesOf(check.issues))
      && (level.High? <==>
            && check.status.NeedsReview? && CandidateConflict !in CodesOf(check.issues)
            && (exists c :: c in CodesOf(check.issues) && c in {DateFormatUnresolved, UnitUnverified, EvidenceOffsetsMissing}))
      && !level.Low?
  {
    var o := observations[i];
    var check := CheckOf(parsed, observations, threshold, i);
    SoftAreNotCritical(parsed, o, |Candidates(observations, o.field)| > 1, threshold);
    if check.status.NeedsReview? {
      ReviewCodes(parsed, observations, threshold, i);
      hide CheckOf, ObservationIssues, Candidates;
      if o.missing.None? {
        assert check.issues[|check.issues| - 1].code == SemanticSupportPending;
        assert SemanticSupportPending in CodesOf(check.issues) && NormalCode(SemanticSupportPending);
      } else {
        EvidenceCodes(parsed, o.evidence);
        var k := |check.issues| - 1;
        assert check.issues[k].code in CodesOf(check.issues);
        assert !check.issues[k].severity.Error?;
        assert HighRiskCode(check.issues[k].code) || NormalCode(check.issues[k].code);
      }
    }
  }

  /** The codes of a check that needs review: none rejects, and high risk is one of three. */
  lemma ReviewCodes(parsed: ParsedDocument, observations: seq<Observation>, threshold: real, i: nat)
    requires i < |observations| && CheckOf(parsed, observations, threshold, i).status.NeedsReview?
    ensures forall c :: c in CodesOf(CheckOf(parsed, observations, threshold, i).issues) ==>
      && (CriticalCode(c) <==> c.CandidateConflict?)
      && (HighRiskCode(c) <==> c in {DateFormatUnresolved, UnitUnverified, EvidenceOffsetsMissing})
  {
    var issues := CheckOf(parsed, observations, threshold, i).issues;
    ChecksGraded(parsed, observations, threshold, i);
    assert !HasError(issues);
    hide CheckOf;
    forall c | c in CodesOf(issues)
      ensures !Mechanical(c) && !c.OtherCode?
    {
      var k :| 0 <= k < |issues| && issues[k].code == c;
      assert !issues[k].severity.Error?;
      IssuesAreDeserved(parsed, observations, threshold, i, c);
    }
    hide CodesOf;
  }

  lemma {:induction false} EvidenceCodes(parsed: ParsedDocument, evidence: seq<Evidence>)
    ensures forall k :: 0 <= k < |AllEvidenceIssues(parsed, evidence)| ==>
      var issue := AllEvidenceIssues(parsed, evidence)[k];
      issue.severity.Error? || issue.code.EvidenceOffsetsMissing?
  {
    if evidence != [] {
      EvidenceCodes(parsed, evidence[..|evidence| - 1]);
    }
  }

  lemma SoftAreNotCritical(parsed: ParsedDocument, o: Observation, conflict: bool, threshold: real)
    ensures forall k :: 0 <= k < |ObservationIssues(parsed, o, conflict, threshold)| ==>
      var issue := ObservationIssues(parsed, o, conflict, threshold)[k];
      issue.severity.Review? && CriticalCode(issue.code) ==> issue.code.CandidateConflict?
  {
    EvidenceCodes(parsed, o.evidence);
    hide Blank;
  }

  // ----- Rows and latest decisions

  /** The candidate joins a report and passes the filters. */
  predicate Matches(db: Db, c: Id, project: Option<string>, field: Option<Field>) {
    && c in db.candidates && db.candidates[c].run in db.reports
    && (project.Some? ==> db.reports[db.candidates[c].run].project == project.value)
    && (field.Some? ==> db.candidates[c].field == field.value)
  }

  /** The elements of a finite set, in an order the database chooses. */
  method AnyOrder<T(==)>(all: set<T>) returns (s: seq<T>)
    ensures Distinct(s) && forall x :: x in s <==> x in all
  {
    s := [];
    var rest := all;
    while rest != {}
      invariant rest <= all && Distinct(s)
      invariant forall x :: x in s <==> x in all && x !in rest
      decreases rest
    {
      var x :| x in rest;
      s, rest := s + [x], rest - {x};
    }
  }

  function ObservationIndex(db: Db, c: Id): nat { if c in db.candidates then db.candidates[c].index else 0 }

  function ByIndex(db: Db): (Id, Id) -> bool { (a: Id, b: Id) => ObservationIndex(db, a) <= ObservationIndex(db, b) }

  /** The matching candidates, each once, in the order of their observation index. */
  ghost predicate Rows(db: Db, project: Option<string>, field: Option<Field>, rows: seq<Id>) {
    Distinct(rows) && SortedBy(ByIndex(db), rows) && forall c :: c in rows <==> Matches(db, c, project, field)
  }

  method CandidateRows(db: Db, project: Option<string>, field: Option<Field>) returns (rows: seq<Id>)
    ensures Rows(db, project, field, rows)
  {
    var all := set c | c in db.candidates && Matches(db, c, project, field);
    var found := AnyOrder(all);
    rows := Sort(ByIndex(db), found);
    SortSorts(ByIndex(db), found);
    DistinctRearranged(found, rows);
    SameElements(found, rows);
    hide ObservationIndex, Matches;
  }

  function DecisionsOf(db: Db, c: Id): set<Id> { set d | d in db.decisions && db.decisions[d].candidate == c }

  ghost predicate Latest(db: Db, c: Id, d: Id) {
    d in DecisionsOf(db, c) && forall e :: e in DecisionsOf(db, c) ==> db.decisions[e].createdAt <= db.decisions[d].createdAt
  }

  datatype ReviewState = Unreviewed | Reviewed(status: ReviewStatus) {
    predicate Done() { Reviewed? && status.Approved? }
  }

  /** `state` is the outcome of a latest decision of `c`, or the candidate has none. */
  ghost predicate StateIs(db: Db, c: Id, state: ReviewState) {
    match state
    case Unreviewed => DecisionsOf(db, c) == {}
    case Reviewed(status) => exists d :: Latest(db, c, d) && db.decisions[d].status == status
  }

  method LatestDecision(db: Db, c: Id) returns (latest: Option<Id>, count: nat)
    ensures count == |DecisionsOf(db, c)|
    ensures latest.None? <==> DecisionsOf(db, c) == {}
    ensures latest.Some? ==> Latest(db, c, latest.value)
  {
    var all := DecisionsOf(db, c);
    latest, count := None, |all|;
    var rest := all;
    while rest != {}
      invariant rest <= all
      invariant latest.None? <==> rest == all
      invariant latest.Some? ==> latest.value in all
      invariant latest.Some? ==> forall e :: e in all - rest ==> db.decisions[e].createdAt <= db.decisions[latest.value].createdAt
      decreases rest
    {
      var d :| d in rest;
      if latest.None? || db.decisions[latest.value].createdAt < db.decisions[d].createdAt {
        latest := Some(d);
      }
      rest := rest - {d};
    }
  }

  function StateAfter(db: Db, latest: Option<Id>): ReviewState {
    if latest.Some? && latest.value in db.decisions then Reviewed(db.decisions[latest.value].status) else Unreviewed
  }

  /** Latest decisions made at one instant do not disagree about approval. */
  ghost predicate Settled(db: Db, c: Id) {
    forall s, t :: StateIs(db, c, s) && StateIs(db, c, t) ==> s.Done() == t.Done()
  }

  lemma DistinctTimesSettle(db: Db, c: Id)
    requires forall d, e :: d in DecisionsOf(db, c) && e in DecisionsOf(db, c) && d != e ==>
      db.decisions[d].createdAt != db.decisions[e].createdAt
    ensures Settled(db, c)
  {
    forall d, e | Latest(db, c, d) && Latest(db, c, e)
      ensures d == e
    {
    }
  }

  // ----- The queue

  datatype Item = Item(
    candidate: Id, run: Id, registry: Registry, project: string, field: Field, status: CheckStatus,
    state: ReviewState, level: Level, score: nat, reasons: seq<Reason>, value: Json, unit: Option<string>,
    issues: seq<Issue>, evidence: seq<Evidence>, current: Option<Id>, decisions: nat, latestAt: Option<Time>)

  function EvidenceIndices(db: Db, c: Id): set<nat> { set k | k in db.evidence && k.0 == c :: k.1 }

  predicate Increasing(order: seq<nat>) { forall i, j :: 0 <= i < j < |order| ==> order[i] < order[j] }

  /** `refs` are the evidence rows of `c` in the order of their index. */
  ghost predicate InOrder(db: Db, c: Id, order: seq<nat>, refs: seq<Evidence>) {
    && |refs| == |order| && Increasing(order) && (forall i :: i in order <==> i in EvidenceIndices(db, c))
    && forall j :: 0 <= j < |order| ==> (c, order[j]) in db.evidence && refs[j] == db.evidence[(c, order[j])]
  }

  ghost predicate EvidenceListed(db: Db, c: Id, refs: seq<Evidence>) { exists order :: InOrder(db, c, order, refs) }

  predicate NoLater(a: nat, b: nat) { a <= b }

  /** `ORDER BY evidence_index` */
  method EvidenceRowsOf(db: Db, c: Id) returns (refs: seq<Evidence>)
    ensures EvidenceListed(db, c, refs)
  {
    var indices := AnyOrder(EvidenceIndices(db, c));
    var order := Sort(NoLater, indices);
    SortedIndices(indices);
    assert forall j :: 0 <= j < |order| ==> order[j] in order && order[j] in EvidenceIndices(db, c);
    refs := seq(|order|, j requires 0 <= j < |order| => db.evidence[(c, order[j])]);
    assert InOrder(db, c, order, refs);
  }

  lemma SortedIndices(indices: seq<nat>)
    requires Distinct(indices)
    ensures Increasing(Sort(NoLater, indices))
    ensures forall i :: i in Sort(NoLater, indices) <==> i in indices
  {
    var order := Sort(NoLater, indices);
    SortSorts(NoLater, indices);
    DistinctRearranged(indices, order);
    SameElements(indices, order);
  }

  lemma HeadIsMember<T>(s: seq<T>)
    ensures s == [] || s[0] in s
  {
  }

  /** `order` lists exactly the numbers below `n`. */
  ghost predicate Lists(order: seq<nat>, n: nat) { forall i: nat :: i in order <==> i < n }

  lemma LastOfLists(order: seq<nat>, n: nat)
    requires Increasing(order) && Lists(order, n) && n > 0
    ensures order != [] && order[|order| - 1] == n - 1
  {
    assert n - 1 in order;
    assert order[|order| - 1] in order;
  }

  lemma FrontLists(order: seq<nat>, n: nat)
    requires Increasing(order) && Lists(order, n) && order != [] && order[|order| - 1] == n - 1
    ensures Lists(order[..|order| - 1], n - 1)
  {
    var front := order[..|order| - 1];
    forall i: nat
      ensures i in front <==> i < n - 1
    {
      if i in front {
        var k :| 0 <= k < |front| && front[k] == i;
        assert order[k] < order[|order| - 1];
      }
      if i < n - 1 {
        assert i in order;
        var k :| 0 <= k < |order| && order[k] == i;
        assert front[k] == i;
      }
    }
  }

  /** The numbers below `n`, listed in increasing order, are themselves. */
  lemma {:induction false} IncreasingIsIdentity(order: seq<nat>, n: nat)
    requires Increasing(order) && Lists(order, n)
    ensures |order| == n && forall j :: 0 <= j < n ==> order[j] == j
  {
    if n > 0 {
      LastOfLists(order, n);
      FrontLists(order, n);
      hide Lists;
      IncreasingIsIdentity(order[..|order| - 1], n - 1);
    } else {
      HeadIsMember(order);
    }
  }

  /** On a sound store the rows are the evidence of the candidate's own observation, in its order. */
  lemma EvidenceIsTheObservations(db: Db, c: Id, refs: seq<Evidence>)
    requires EvidenceOk(db) && CandidatesOk(db) && c in db.candidates && EvidenceListed(db, c, refs)
    ensures c.OfCandidate? && c.run in db.reports && c.index < |db.reports[c.run].report.checks|
    ensures refs == Refs(db, c.run, c.index)
  {
    assert CandidateOk(db, c);
    var order :| InOrder(db, c, order, refs);
    var own := Refs(db, c.run, c.index);
    forall i: nat
      ensures i in order <==> i < |own|
    {
      if i in order {
        assert i in EvidenceIndices(db, c);
        assert EvidenceRowOk(db, (c, i));
      }
      if i < |own| {
        assert (OfCandidate(c.run, c.index), i) in db.evidence;
        assert i in EvidenceIndices(db, c);
      }
    }
    IncreasingIsIdentity(order, |own|);
    forall j | 0 <= j < |own|
      ensures refs[j] == own[j]
    {
      assert EvidenceRowOk(db, (c, j));
    }
  }

  /** An item shows its candidate as the tables have it. */
  ghost predicate Describes(db: Db, item: Item) {
    && Matches(db, item.candidate, None, None)
    && var row := db.candidates[item.candidate];
    && item.run == row.run && item.registry == db.reports[row.run].registry && item.project == db.reports[row.run].project
    && item.field == row.field && item.status == row.status && item.value == row.value && item.unit == row.unit
    && item.issues == row.issues && EvidenceListed(db, item.candidate, item.evidence)
    && StateIs(db, item.candidate, item.state)
    && item.level == LevelOf(row.status, CodesOf(row.issues)) && item.score == Score(item.level) && item.reasons != []
    && item.current == CurrentFact(db, ScopeOf(db, item.candidate))
    && item.decisions == |DecisionsOf(db, item.candidate)|
    && (item.latestAt.None? <==> DecisionsOf(db, item.candidate) == {})
    && (item.latestAt.Some? ==> forall d :: d in DecisionsOf(db, item.candidate) ==> db.decisions[d].createdAt <= item.latestAt.value)
  }

  /** `item` for one row; None for an approved candidate that is not asked for. */
  method ItemFromRow(db: Db, c: Id, includeApproved: bool) returns (item: Option<Item>)
    requires Matches(db, c, None, None)
    ensures item.Some? ==> item.value.candidate == c && Describes(db, item.value) && (includeApproved || !item.value.state.Done())
    ensures item.None? ==> !includeApproved && StateIs(db, c, Reviewed(Approved))
  {
    var latest, count := LatestDecision(db, c);
    var state := StateAfter(db, latest);
    if state.Done() && !includeApproved {
      return None;
    }
    var row := db.candidates[c];
    var report := db.reports[row.run];
    var level, score, reasons := Priority(row.status, row.issues);
    var evidence := EvidenceRowsOf(db, c);
    hide CodesOf, LevelOf, ScopeOf, EvidenceListed;
    item := Some(Item(
      c, row.run, report.registry, report.project, row.field, row.status, state, level, score, reasons, row.value, row.unit,
      row.issues, evidence, CurrentFact(db, ScopeOf(db, c)), count,
      if latest.Some? then Some(db.decisions[latest.value].createdAt) else None));
  }

  /** Highest score first, then project, then field name. */
  predicate Before(a: Item, b: Item) {
    || a.score > b.score
    || (a.score == b.score
        && (StrLess(a.project, b.project) || (a.project == b.project && Rank(a.field) <= Rank(b.field))))
  }

  predicate Ties(a: Item, b: Item) { Before(a, b) && Before(b, a) }

  function ByRow(db: Db): (Item, Item) -> bool { (a: Item, b: Item) => ByIndex(db)(a.candidate, b.candidate) }

  /** The place of two items in a queue: what ties keeps the order of its observation indices. */
  predicate Placed(db: Db, a: Item, b: Item) { Before(a, b) && (Ties(a, b) ==> ByRow(db)(a, b)) }

  lemma BeforeIsTotalPreorder()
    ensures TotalPreorder(Before)
  {
    hide StrLess, Rank;
    forall a: Item, b: Item
      ensures Before(a, b) || Before(b, a)
    {
      StrLessTrichotomy(a.project, b.project);
    }
    forall a: Item, b: Item, c: Item | Before(a, b) && Before(b, c)
      ensures Before(a, c)
    {
      if a.score == b.score == c.score && a.project != b.project && b.project != c.project {
        StrLessTransitive(a.project, b.project, c.project);
      }
    }
  }

  ghost predicate Listed(c: Id, items: seq<Item>) { exists i :: 0 <= i < |items| && items[i].candidate == c }

  /** Distinct items, each describing its own candidate of `rows`, and none that is not asked for. */
  ghost predicate Shown(db: Db, rows: seq<Id>, includeApproved: bool, items: seq<Item>) {
    && Distinct(items)
    && (forall x, y :: x in items && y in items && x.candidate == y.candidate ==> x == y)
    && (forall x :: x in items ==> Describes(db, x) && x.candidate in rows && (includeApproved || !x.state.Done()))
  }

  /** Every candidate of `rows` is shown, or is approved and not asked for. */
  ghost predicate Complete(db: Db, rows: seq<Id>, includeApproved: bool, items: seq<Item>) {
    forall c :: c in rows ==> Listed(c, items) || (!includeApproved && StateIs(db, c, Reviewed(Approved)))
  }

  lemma ShowOne(db: Db, rows: seq<Id>, k: nat, includeApproved: bool, items: seq<Item>, item: Option<Item>)
    requires k < |rows| && Distinct(rows)
    requires Shown(db, rows[..k], includeApproved, items) && Complete(db, rows[..k], includeApproved, items)
    requires item.Some? ==> item.value.candidate == rows[k] && Describes(db, item.value) && (includeApproved || !item.value.state.Done())
    requires item.None? ==> !includeApproved && StateIs(db, rows[k], Reviewed(Approved))
    ensures var after := items + if item.Some? then [item.value] else [];
      Shown(db, rows[..k + 1], includeApproved, after) && Complete(db, rows[..k + 1], includeApproved, after)
  {
    hide Describes, StateIs;
    var after := items + if item.Some? then [item.value] else [];
    assert rows[..k + 1] == rows[..k] + [rows[k]];
    assert rows[k] !in rows[..k];
    forall c | c in rows[..k + 1]
      ensures Listed(c, after) || (!includeApproved && StateIs(db, c, Reviewed(Approved)))
    {
      if c in rows[..k] {
        if Listed(c, items) {
          var i :| 0 <= i < |items| && items[i].candidate == c;
          assert after[i].candidate == c;
        }
      } else if item.Some? {
        assert after[|items|].candidate == c;
      }
    }
  }

  /** Items follow their rows. */
  lemma ShowInOrder(db: Db, rows: seq<Id>, k: nat, includeApproved: bool, items: seq<Item>, item: Option<Item>)
    requires k < |rows| && SortedBy(ByIndex(db), rows)
    requires Shown(db, rows[..k], includeApproved, items) && SortedBy(ByRow(db), items)
    requires item.Some? ==> item.value.candidate == rows[k]
    ensures SortedBy(ByRow(db), items + if item.Some? then [item.value] else [])
  {
    hide Describes, ObservationIndex;
    if item.Some? {
      forall i | 0 <= i < |items|
        ensures ByRow(db)(items[i], item.value)
      {
        assert items[i] in items;
        var j :| 0 <= j < k && rows[j] == items[i].candidate;
      }
    }
  }

  lemma SortedIsPlaced(db: Db, items: seq<Item>)
    requires SortedBy(ByRow(db), items)
    ensures var s := Sort(Before, items); forall i, j :: 0 <= i < j < |s| ==> Placed(db, s[i], s[j])
  {
    BeforeIsTotalPreorder();
    SortSorts(Before, items);
    SortStable(Before, ByRow(db), items);
    hide Before, ByRow;
  }

  lemma ShownRearranged(db: Db, rows: seq<Id>, includeApproved: bool, a: seq<Item>, b: seq<Item>)
    requires multiset(a) == multiset(b)
    requires Shown(db, rows, includeApproved, a) && Complete(db, rows, includeApproved, a)
    ensures Shown(db, rows, includeApproved, b) && Complete(db, rows, includeApproved, b)
  {
    hide Describes, StateIs;
    DistinctRearranged(a, b);
    SameElements(a, b);
    forall c | Listed(c, a)
      ensures Listed(c, b)
    {
      var i :| 0 <= i < |a| && a[i].candidate == c;
      assert a[i] in b;
    }
  }

  /** A queue under the given filters: in order, and exactly the matching candidates that are asked for. */
  ghost predicate IsQueue(db: Db, project: Option<string>, field: Option<Field>, includeApproved: bool, items: seq<Item>) {
    && (forall i, j :: 0 <= i < j < |items| ==> Placed(db, items[i], items[j]))
    && exists rows :: Rows(db, project, field, rows) && Shown(db, rows, includeApproved, items) && Complete(db, rows, includeApproved, items)
  }

  lemma SortedIsQueue(
    db: Db, project: Option<string>, field: Option<Field>, includeApproved: bool, rows: seq<Id>, items: seq<Item>)
    requires Rows(db, project, field, rows) && Shown(db, rows, includeApproved, items) && Complete(db, rows, includeApproved, items)
    requires SortedBy(ByRow(db), items)
    ensures IsQueue(db, project, field, includeApproved, Sort(Before, items))
  {
    SortedIsPlaced(db, items);
    ShownRearranged(db, rows, includeApproved, items, Sort(Before, items));
    hide Rows, Shown, Complete, Placed, ByRow;
  }

  datatype QueueError = LimitNotPositive

  /** `collections.Counter` */
  method Counter<T(==)>(keys: seq<T>) returns (counts: map<T, nat>)
    ensures forall k :: (k in counts <==> k in keys) && (k in counts ==> counts[k] == multiset(keys)[k])
  {
    counts := map[];
    for i := 0 to |keys|
      invariant forall k :: (k in counts <==> k in keys[..i]) && (k in counts ==> counts[k] == multiset(keys[..i])[k])
    {
      var k := keys[i];
      assert keys[..i + 1] == keys[..i] + [k];
      assert k !in counts ==> multiset(keys[..i])[k] == 0;
      counts := counts[k := (if k in counts then counts[k] else 0) + 1];
    }
    assert keys[..|keys|] == keys;
  }

  function StatesOf(items: seq<Item>): seq<ReviewState> { seq(|items|, i requires 0 <= i < |items| => items[i].state) }

  function LevelsOf(items: seq<Item>): seq<Level> { seq(|items|, i requires 0 <= i < |items| => items[i].level) }

  datatype Snapshot = Snapshot(items: seq<Item>, byState: map<ReviewState, nat>, byLevel: map<Level, nat>)

  /** Items per state and per level, counted over what the snapshot shows. */
  ghost predicate Counted(s: Snapshot) {
    && (forall k :: (k in s.byState <==> k in StatesOf(s.items)) && (k in s.byState ==> s.byState[k] == multiset(StatesOf(s.items))[k]))
    && (forall k :: (k in s.byLevel <==> k in LevelsOf(s.items)) && (k in s.byLevel ==> s.byLevel[k] == multiset(LevelsOf(s.items))[k]))
  }

  method SnapshotOf(items: seq<Item>) returns (s: Snapshot)
    ensures s.items == items && Counted(s)
  {
    var byState := Counter(StatesOf(items));
    var byLevel := Counter(LevelsOf(items));
    s := Snapshot(items, byState, byLevel);
  }

  lemma RowsMatch(db: Db, rows: seq<Id>)
    requires exists project, field :: Rows(db, project, field, rows)
    ensures Distinct(rows) && SortedBy(ByIndex(db), rows) && forall c :: c in rows ==> Matches(db, c, None, None)
  {
  }

  /** The items of `rows`, in the order of their rows. */
  method ItemsOf(db: Db, rows: seq<Id>, includeApproved: bool) returns (items: seq<Item>)
    requires exists project, field :: Rows(db, project, field, rows)
    ensures Shown(db, rows, includeApproved, items) && Complete(db, rows, includeApproved, items)
    ensures SortedBy(ByRow(db), items)
  {
    items := [];
    RowsMatch(db, rows);
    for k := 0 to |rows|
      invariant Shown(db, rows[..k], includeApproved, items) && Complete(db, rows[..k], includeApproved, items)
      invariant SortedBy(ByRow(db), items)
    {
      hide Describes, StateIs, Before, ByRow, ByIndex;
      assert rows[k] in rows;
      var item := ItemFromRow(db, rows[k], includeApproved);
      ShowOne(db, rows, k, includeApproved, items, item);
      ShowInOrder(db, rows, k, includeApproved, items, item);
      items := items + if item.Some? then [item.value] else [];
    }
    assert rows[..|rows|] == rows;
  }

  lemma QueueIsCut(
    db: Db, project: Option<string>, field: Option<Field>, includeApproved: bool, full: seq<Item>, limit: Option<int>, kept: seq<Item>)
    requires IsQueue(db, project, field, includeApproved, full) && (limit.Some? ==> limit.value >= 1)
    requires kept == if limit.Some? && limit.value < |full| then full[..limit.value] else full
    ensures IsCut(db, full, limit, kept)
  {
    hide Placed, Shown, Complete, Rows;
  }

  /** As much of the queue as the limit allows, if there is one; everything kept comes before everything left out. */
  ghost predicate IsCut(db: Db, full: seq<Item>, limit: Option<int>, kept: seq<Item>) {
    && kept <= full && |kept| == (if limit.Some? && limit.value < |full| then limit.value else |full|)
    && forall i, j :: 0 <= i < |kept| <= j < |full| ==> Placed(db, kept[i], full[j])
  }

  method BuildReviewQueue(db: Db, project: Option<string>, field: Option<Field>, includeApproved: bool, limit: Option<int>)
    returns (r: Result<Snapshot, QueueError>, ghost full: seq<Item>)
    ensures r.Err? <==> limit.Some? && limit.value < 1
    ensures r.Ok? ==> IsQueue(db, project, field, includeApproved, full)
    ensures r.Ok? ==> Counted(r.value) && IsCut(db, full, limit, r.value.items)
  {
    full := [];
    if limit.Some? && limit.value < 1 {
      return Err(LimitNotPositive), full;
    }
    hide Rows, Shown, Complete, SortedBy, Before, Placed, Counted, IsQueue, IsCut;
    var rows := CandidateRows(db, project, field);
    var items := ItemsOf(db, rows, includeApproved);
    var sorted := Sort(Before, items);
    SortedIsQueue(db, project, field, includeApproved, rows, items);
    full := sorted;
    var kept := if limit.Some? && limit.value < |sorted| then sorted[..limit.value] else sorted;
    QueueIsCut(db, project, field, includeApproved, full, limit, kept);
    var snapshot := SnapshotOf(kept);
    r := Ok(snapshot);
  }

  // ----- Metrics

  datatype Metrics = Metrics(
    total: nat, byStatus: map<CheckStatus, nat>, reviewed: nat, pending: nat, decisions: nat,
    byDecision: map<ReviewStatus, nat>, approvalRate: Option<real>, unresolvedRate: Option<real>,
    evidenceCoverage: Option<real>, fieldCoverage: Option<real>, rework: nat, averageLatency: Option<real>)

  datatype MetricsError = UnknownCandidate

  function AllCandidates(db: Db): set<Id> { set c | c in db.candidates && Matches(db, c, None, None) }

  function Decided(db: Db): set<Id> { set d | d in db.decisions :: db.decisions[d].candidate }

  function WithStatus(db: Db, status: CheckStatus): set<Id> { set c | c in AllCandidates(db) && db.candidates[c].status == status }

  function WithOutcome(db: Db, status: ReviewStatus): set<Id> { set d | d in db.decisions && db.decisions[d].status == status }

  function WithEvidence(db: Db): set<Id> { set c | c in AllCandidates(db) && exists k :: k in db.evidence && k.0 == c }

  function FieldsOf(db: Db, cs: set<Id>): set<Field> { set c | c in cs && c in db.candidates :: db.candidates[c].field }

  /** One latest state per candidate. */
  ghost predicate States(db: Db, states: map<Id, ReviewState>) {
    states.Keys == AllCandidates(db) && forall c :: c in states ==> StateIs(db, c, states[c])
  }

  function PendingOf(states: map<Id, ReviewState>): set<Id> { set c | c in states && !states[c].Done() }

  method LatestStates(db: Db, rows: seq<Id>) returns (states: map<Id, ReviewState>)
    ensures states.Keys == set c | c in rows
    ensures forall c :: c in states ==> StateIs(db, c, states[c])
  {
    states := map[];
    for k := 0 to |rows|
      invariant states.Keys == set c | c in rows[..k]
      invariant forall c :: c in states ==> StateIs(db, c, states[c])
    {
      var latest, _ := LatestDecision(db, rows[k]);
      states := states[rows[k] := StateAfter(db, latest)];
      assert rows[..k + 1] == rows[..k] + [rows[k]];
    }
    assert rows[..|rows|] == rows;
  }

  function StatusCounts(db: Db): map<CheckStatus, nat> {
    map s | s in {MissingValue, RejectedCheck, NeedsReview} && WithStatus(db, s) != {} :: |WithStatus(db, s)|
  }

  function OutcomeCounts(db: Db): map<ReviewStatus, nat> {
    map s | s in {Approved, Rejected, Unresolved} && WithOutcome(db, s) != {} :: |WithOutcome(db, s)|
  }

  function Reworked(db: Db): set<Id> { set c | c in Decided(db) && |DecisionsOf(db, c)| > 1 }

  function FieldCoverage(db: Db): Option<real> {
    if AllCandidates(db) == {} then None
    else Share(|FieldsOf(db, Decided(db))|, |FieldsOf(db, AllCandidates(db))|)
  }

  /** From the end of the candidate's validation run to the decision; None if unknown or negative. */
  function Latency(db: Db, d: Id): (latency: Option<nat>)
    requires d in db.decisions
  {
    var row := db.decisions[d];
    if !Matches(db, row.candidate, None, None) || db.candidates[row.candidate].run !in db.runs then None
    else
      var run := db.runs[db.candidates[row.candidate].run];
      if run.finishedAt.None? || row.createdAt < run.finishedAt.value then None
      else Some(row.createdAt - run.finishedAt.value)
  }

  function Timed(db: Db): set<Id> { set d | d in db.decisions && Latency(db, d).Some? }

  /** The latencies of `ds` added up; in which order does not matter, see `TotalStep`. */
  ghost function TotalLatency(db: Db, ds: set<Id>): nat
    requires ds <= Timed(db)
  {
    if ds == {} then 0
    else
      var d :| d in ds;
      Latency(db, d).value + TotalLatency(db, ds - {d})
  }

  lemma {:induction false} TotalStep(db: Db, ds: set<Id>, d: Id)
    requires ds <= Timed(db) && d in ds
    ensures TotalLatency(db, ds) == Latency(db, d).value + TotalLatency(db, ds - {d})
  {
    hide Latency;
    var e :| e in ds && TotalLatency(db, ds) == Latency(db, e).value + TotalLatency(db, ds - {e});
    if d != e {
      TotalStep(db, ds - {e}, d);
      TotalStep(db, ds - {d}, e);
      assert ds - {e} - {d} == ds - {d} - {e};
    }
  }

  ghost function AverageLatency(db: Db): Option<real> {
    if Timed(db) == {} then None else Some(TotalLatency(db, Timed(db)) as real / |Timed(db)| as real)
  }

  method SumLatencies(db: Db) returns (average: Option<real>)
    ensures average == AverageLatency(db)
  {
    hide Latency;
    var all := set d | d in db.decisions && Latency(db, d).Some?;
    var rest, total, count := all, 0, 0;
    while rest != {}
      invariant rest <= all && count + |rest| == |all|
      invariant total + TotalLatency(db, rest) == TotalLatency(db, all)
      decreases rest
    {
      var d :| d in rest;
      TotalStep(db, rest, d);
      total, count, rest := total + Latency(db, d).value, count + 1, rest - {d};
    }
    average := if count == 0 then None else Some(total as real / count as real);
  }

  lemma {:induction false} TotalBetween(db: Db, ds: set<Id>, least: nat, most: nat)
    requires ds <= Timed(db) && forall d :: d in ds ==> least <= Latency(db, d).value <= most
    ensures |ds| * least <= TotalLatency(db, ds) <= |ds| * most
  {
    hide Latency;
    if ds != {} {
      var d :| d in ds;
      var rest := ds - {d};
      TotalStep(db, ds, d);
      TotalBetween(db, rest, least, most);
      OneMore(|rest|, least);
      OneMore(|rest|, most);
      hide Timed, TotalLatency;
      assert |ds| == |rest| + 1;
    }
  }

  lemma OneMore(n: nat, k: nat)
    ensures (n + 1) * k == n * k + k
  {
  }

  lemma QuotientBetween(total: nat, n: nat, least: nat, most: nat)
    requires n > 0 && n * least <= total <= n * most
    ensures least as real <= total as real / n as real <= most as real
  {
    assert (n * least) as real == n as real * least as real && (n * most) as real == n as real * most as real;
    Divided(total as real, n as real, least as real, most as real);
  }

  lemma Divided(total: real, n: real, least: real, most: real)
    requires n > 0.0 && n * least <= total <= n * most
    ensures least <= total / n <= most
  {
  }

  /** The average lies between any bounds of the latencies it averages. */
  lemma AverageIsBetween(db: Db, least: nat, most: nat)
    requires forall d :: d in Timed(db) ==> least <= Latency(db, d).value <= most
    ensures AverageLatency(db).Some? ==> least as real <= AverageLatency(db).value <= most as real
  {
    hide Latency;
    if Timed(db) != {} {
      TotalBetween(db, Timed(db), least, most);
      hide Timed, TotalLatency;
      QuotientBetween(TotalLatency(db, Timed(db)), |Timed(db)|, least, most);
    }
  }

  ghost function MetricsFor(db: Db, states: map<Id, ReviewState>): Metrics {
    Metrics(|AllCandidates(db)|, StatusCounts(db), |Decided(db)|, |PendingOf(states)|, |db.decisions|, OutcomeCounts(db),
            Share(|WithOutcome(db, Approved)|, |db.decisions|), Share(|WithOutcome(db, Unresolved)|, |db.decisions|),
            Share(|WithEvidence(db)|, |AllCandidates(db)|), FieldCoverage(db), |Reworked(db)|,
            AverageLatency(db))
  }

  /** A decision on a candidate no report stands behind is a KeyError, unless there are no candidates at all. */
  method BuildReviewMetrics(db: Db) returns (r: Result<Metrics, MetricsError>, ghost states: map<Id, ReviewState>)
    ensures r.Err? <==> AllCandidates(db) != {} && !(Decided(db) <= AllCandidates(db))
    ensures r.Ok? ==> States(db, states) && r.value == MetricsFor(db, states)
  {
    var rows := CandidateRows(db, None, None);
    var latest := LatestStates(db, rows);
    states := latest;
    assert AllCandidates(db) == set c | c in rows;
    var latency := SumLatencies(db);
    hide AverageLatency, StateIs, Matches, Share, StatusCounts, OutcomeCounts, Reworked, WithOutcome, WithEvidence, FieldsOf;
    RowCount(rows);
    if rows != [] && !(Decided(db) <= AllCandidates(db)) {
      return Err(UnknownCandidate), states;
    }
    var coverage :=
      if rows == [] then None else Share(|FieldsOf(db, Decided(db))|, |FieldsOf(db, AllCandidates(db))|);
    r := Ok(Metrics(
      |rows|, StatusCounts(db), |Decided(db)|, |PendingOf(latest)|, |db.decisions|, OutcomeCounts(db),
      Share(|WithOutcome(db, Approved)|, |db.decisions|), Share(|WithOutcome(db, Unresolved)|, |db.decisions|),
      Share(|WithEvidence(db)|, |rows|), coverage, |Reworked(db)|, latency));
  }

  lemma ThreeParts<T>(all: set<T>, a: set<T>, b: set<T>, c: set<T>)
    requires all == a + b + c && a !! b && a !! c && b !! c
    ensures |all| == |a| + |b| + |c|
  {
    assert (a + b) !! c;
    assert |a + b + c| == |a + b| + |c|;
  }

  /** Candidates and decisions are counted once each by their status. */
  lemma CandidatesAddUp(db: Db)
    ensures |WithStatus(db, MissingValue)| + |WithStatus(db, RejectedCheck)| + |WithStatus(db, NeedsReview)| == |AllCandidates(db)|
  {
    hide Matches;
    forall c | c in AllCandidates(db)
      ensures c in WithStatus(db, MissingValue) + WithStatus(db, RejectedCheck) + WithStatus(db, NeedsReview)
    {
      match db.candidates[c].status { case MissingValue => case RejectedCheck => case NeedsReview => }
    }
    ThreeParts(AllCandidates(db), WithStatus(db, MissingValue), WithStatus(db, RejectedCheck), WithStatus(db, NeedsReview));
  }

  lemma DecisionsAddUp(db: Db)
    ensures |WithOutcome(db, Approved)| + |WithOutcome(db, Rejected)| + |WithOutcome(db, Unresolved)| == |db.decisions|
  {
    forall d | d in db.decisions
      ensures d in WithOutcome(db, Approved) + WithOutcome(db, Rejected) + WithOutcome(db, Unresolved)
    {
      match db.decisions[d].status { case Approved => case Rejected => case Unresolved => }
    }
    ThreeParts(db.decisions.Keys, WithOutcome(db, Approved), WithOutcome(db, Rejected), WithOutcome(db, Unresolved));
    assert |db.decisions| == |db.decisions.Keys|;
  }

  lemma {:induction false} RowCount(rows: seq<Id>)
    requires Distinct(rows)
    ensures |set c | c in rows| == |rows|
  {
    if rows != [] {
      var last := |rows| - 1;
      RowCount(rows[..last]);
      assert rows == rows[..last] + [rows[last]];
      assert (set c | c in rows) == (set c | c in rows[..last]) + {rows[last]};
    }
  }

  lemma Subset<T>(a: set<T>, b: set<T>)
    requires a <= b
    ensures |a| <= |b|
  {
    assert b == a + (b - a);
  }

  /** Every published rate is a share: between zero and one. */
  lemma RatesAreShares(db: Db)
    requires Decided(db) <= AllCandidates(db)
    ensures forall s :: InUnit(Share(|WithOutcome(db, s)|, |db.decisions|))
    ensures InUnit(Share(|WithEvidence(db)|, |AllCandidates(db)|))
    ensures InUnit(Share(|FieldsOf(db, Decided(db))|, |FieldsOf(db, AllCandidates(db))|))
  {
    hide Matches;
    assert |db.decisions| == |db.decisions.Keys|;
    forall s
      ensures InUnit(Share(|WithOutcome(db, s)|, |db.decisions|))
    {
      Subset(WithOutcome(db, s), db.decisions.Keys);
    }
    Subset(WithEvidence(db), AllCandidates(db));
    Subset(FieldsOf(db, Decided(db)), FieldsOf(db, AllCandidates(db)));
  }

  lemma {:induction false} ItemCount(items: seq<Item>)
    requires Distinct(items) && forall x, y :: x in items && y in items && x.candidate == y.candidate ==> x == y
    ensures |set x | x in items :: x.candidate| == |items|
  {
    if items != [] {
      var last := |items| - 1;
      ItemCount(items[..last]);
      assert items == items[..last] + [items[last]];
      assert (set x | x in items :: x.candidate) == (set x | x in items[..last] :: x.candidate) + {items[last].candidate};
      assert items[last] !in items[..last];
    }
  }

  lemma ShownArePending(db: Db, rows: seq<Id>, items: seq<Item>, states: map<Id, ReviewState>, x: Item)
    requires Shown(db, rows, false, items) && States(db, states) && x in items
    requires x.candidate in AllCandidates(db) && Settled(db, x.candidate)
    ensures x.candidate in PendingOf(states)
  {
    hide StateIs, Matches, AllCandidates;
    assert Describes(db, x);
    assert StateIs(db, x.candidate, x.state) && StateIs(db, x.candidate, states[x.candidate]);
  }

  lemma NotApproved(db: Db, c: Id, state: ReviewState)
    requires StateIs(db, c, state) && Settled(db, c) && !state.Done()
    ensures !StateIs(db, c, Reviewed(Approved))
  {
    hide StateIs;
    assert Reviewed(Approved).Done();
  }

  lemma PendingAreShown(db: Db, rows: seq<Id>, items: seq<Item>, states: map<Id, ReviewState>, c: Id)
    requires Complete(db, rows, false, items) && States(db, states)
    requires c in rows && c in PendingOf(states) && Settled(db, c)
    ensures exists x :: x in items && x.candidate == c
  {
    hide StateIs, Matches, AllCandidates;
    assert StateIs(db, c, states[c]);
    NotApproved(db, c, states[c]);
    assert Listed(c, items);
    var i :| 0 <= i < |items| && items[i].candidate == c;
    assert items[i] in items;
  }

  /**
   The unfiltered queue lists exactly the candidates the metrics count as pending, and pending plus
   latest-approved candidates are all candidates.
   */
  lemma QueueMatchesMetrics(db: Db, items: seq<Item>, states: map<Id, ReviewState>)
    requires IsQueue(db, None, None, false, items) && States(db, states)
    requires forall c :: c in AllCandidates(db) ==> Settled(db, c)
    ensures (set x | x in items :: x.candidate) == PendingOf(states)
    ensures |items| == |PendingOf(states)|
    ensures |PendingOf(states)| + |set c | c in states && states[c].Done()| == |AllCandidates(db)|
  {
    var rows :| Rows(db, None, None, rows) && Shown(db, rows, false, items) && Complete(db, rows, false, items);
    ShownIsPending(db, rows, items, states);
    ItemCount(items);
    hide Rows, Shown, Complete, StateIs, Settled, IsQueue, AllCandidates, ReviewState.Done;
    SplitDone(states);
  }

  lemma SplitDone(states: map<Id, ReviewState>)
    ensures |PendingOf(states)| + |set c | c in states && states[c].Done()| == |states.Keys|
  {
    var done := set c | c in states && states[c].Done();
    assert states.Keys == PendingOf(states) + done && PendingOf(states) !! done;
  }

  lemma ShownIsPending(db: Db, rows: seq<Id>, items: seq<Item>, states: map<Id, ReviewState>)
    requires Rows(db, None, None, rows) && Shown(db, rows, false, items) && Complete(db, rows, false, items)
    requires States(db, states) && forall c :: c in AllCandidates(db) ==> Settled(db, c)
    ensures (set x | x in items :: x.candidate) == PendingOf(states)
  {
    var shown := set x | x in items :: x.candidate;
    assert forall c :: c in rows <==> c in AllCandidates(db);
    assert forall x :: x in items ==> x.candidate in rows;
    hide Matches, Complete, Settled, StateIs, Describes, Shown, AllCandidates;
    forall x | x in items
      ensures x.candidate in PendingOf(states)
    {
      ShownArePending(db, rows, items, states, x);
    }
    forall c | c in PendingOf(states)
      ensures c in shown
    {
      PendingAreShown(db, rows, items, states, c);
    }
  }

  /** On every reachable store the metrics exist, and every stored candidate is counted. */
  lemma ReachableStoreHasMetrics(events: seq<StoreRuns.Event>)
    ensures var db := StoreRuns.Reached(events);
      && Decided(db) <= AllCandidates(db) && AllCandidates(db) == db.candidates.Keys
  {
    hide StoreRuns.Run, StoreRuns.RunHistory, DocumentsOk, ReportsOk, EvidenceOk, FactsOk, HeadsOk, ChainsOk, PeriodsOk;
    StoreRuns.ReachedSides(events);
    var db := StoreRuns.Reached(events);
    forall c | c in db.candidates
      ensures c in AllCandidates(db)
    {
      assert CandidateOk(db, c);
    }
    forall d | d in db.decisions
      ensures db.decisions[d].candidate in db.candidates
    {
      assert DecisionOk(db, d);
    }
  }

  // ----- When the pending count is determined at all

  lemma LatestExists(db: Db, some: set<Id>) returns (d: Id)
    requires some != {} && forall e :: e in some ==> e in db.decisions
    ensures d in some && forall e :: e in some ==> db.decisions[e].createdAt <= db.decisions[d].createdAt
    decreases some
  {
    var x :| x in some;
    d := x;
    if some != {x} {
      var rest := some - {x};
      assert some == rest + {x};
      var y := LatestExists(db, rest);
      d := if db.decisions[y].createdAt < db.decisions[x].createdAt then x else y;
    }
  }

  lemma StateExists(db: Db, c: Id)
    ensures exists s :: StateIs(db, c, s)
  {
    if DecisionsOf(db, c) == {} {
      assert StateIs(db, c, Unreviewed);
    } else {
      var d := LatestExists(db, DecisionsOf(db, c));
      assert Latest(db, c, d);
      assert StateIs(db, c, Reviewed(db.decisions[d].status));
    }
  }

  ghost function AnyState(db: Db, c: Id): (s: ReviewState)
    ensures StateIs(db, c, s)
  {
    StateExists(db, c);
    var s :| StateIs(db, c, s);
    s
  }

  ghost function SomeStates(db: Db): map<Id, ReviewState> { map c | c in AllCandidates(db) :: AnyState(db, c) }

  lemma SettledDetermines(db: Db, s: map<Id, ReviewState>, t: map<Id, ReviewState>)
    requires States(db, s) && States(db, t) && forall c :: c in AllCandidates(db) ==> Settled(db, c)
    ensures PendingOf(s) == PendingOf(t)
  {
    hide StateIs, Matches, AllCandidates;
    forall c | c in s
      ensures s[c].Done() == t[c].Done()
    {
      assert Settled(db, c);
    }
  }

  lemma UnsettledLeavesOpen(db: Db, c: Id) returns (s: map<Id, ReviewState>, t: map<Id, ReviewState>)
    requires c in AllCandidates(db) && !Settled(db, c)
    ensures States(db, s) && States(db, t) && |PendingOf(s)| != |PendingOf(t)|
  {
    hide StateIs, Matches, AllCandidates;
    var x, y :| StateIs(db, c, x) && StateIs(db, c, y) && x.Done() && !y.Done();
    var all := SomeStates(db);
    s, t := all[c := x], all[c := y];
    assert c !in PendingOf(s);
    assert PendingOf(t) == PendingOf(s) + {c};
  }

  /**
   The tables determine the number of pending candidates - and with it the agreement of queue and metrics -
   exactly when no candidate's latest decisions, made at one instant, disagree about approval.
   */
  lemma PendingDeterminedIff(db: Db)
    ensures (forall s, t :: States(db, s) && States(db, t) ==> |PendingOf(s)| == |PendingOf(t)|) <==>
      forall c :: c in AllCandidates(db) ==> Settled(db, c)
  {
    if c :| c in AllCandidates(db) && !Settled(db, c) {
      var s, t := UnsettledLeavesOpen(db, c);
    }
    if forall c :: c in AllCandidates(db) ==> Settled(db, c) {
      forall s, t | States(db, s) && States(db, t)
        ensures |PendingOf(s)| == |PendingOf(t)|
      {
        SettledDetermines(db, s, t);
      }
    }
  }
}
