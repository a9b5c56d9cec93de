/** Version and period gates over an audited project, and the BE - PE - LE arithmetic diagnostic. */
module BusinessChecks {
  import opened Wrappers
  import opened Fields
  import opened Text
  import opened Calendar
  import opened Domain
  import opened Validation
  import opened Store
  import opened StoreInvariant
  import opened StoreRuns
  import opened Readiness
  import opened Sorting
  import opened Decimals
  import opened Division

  /** A reviewer's binding of the assessment to exact facts. */
  datatype Context = Context(
    authorityConfirmed: bool, methodologyFact: Id, versionFact: Id, periodFacts: map<Field, Id>, periodOrder: seq<Field>,
    evidence: seq<Evidence>)
  {
    /** `periodOrder` is the order in which the dictionary of period facts lists its fields. */
    predicate Valid() { Distinct(periodOrder) && forall f :: f in periodOrder <==> f in periodFacts }
  }

  datatype Gate =
    | MethodologyUnconfirmed | VersionMissing | ContextMissing | AuthorityNotConfirmed
    | FactIdentityMismatch(field: Field) | ContextEvidenceNotGrounded

  type Facts = map<Field, ReadyFact>
  type Documents = map<Id, ParsedRow>

  const ER_FIELDS: seq<Field> := [BeValueTco2e, PeValueTco2e, LeValueTco2e, ErReportedTco2e]

  predicate IsFact(facts: Facts, field: Field, id: Id) { field in facts && facts[field].fact == id }

  /** The quote is on the stated page, at its offsets, of some document a fact of the project came from. */
  predicate ContextGrounded(facts: Facts, documents: Documents, e: Evidence) {
    && e.start.Some? && e.end.Some? && !Blank(e.quote)
    && exists f :: f in facts && QuotedIn(facts[f].parsed, documents, e)
  }

  predicate QuotedIn(parsed: Id, documents: Documents, e: Evidence)
    requires e.start.Some? && e.end.Some?
  {
    && parsed in documents && documents[parsed].document.version == e.version
    && 1 <= e.page <= |documents[parsed].document.pages|
    && var text := documents[parsed].document.pages[e.page - 1];
    e.end.value <= |text| && Slice(text, e.start.value, e.end.value) == e.quote
  }

  /** When each gate is raised. */
  predicate Raised(gate: Gate, facts: Facts, context: Option<Context>, documents: Documents) {
    match gate
    case MethodologyUnconfirmed => !(MethodologyName in facts && facts[MethodologyName].value == JStr("ACM0002"))
    case VersionMissing =>
      !(MethodologyVersion in facts && facts[MethodologyVersion].value.JStr? && !Blank(facts[MethodologyVersion].value.s))
    case ContextMissing => context.None?
    case AuthorityNotConfirmed => context.Some? && !context.value.authorityConfirmed
    case FactIdentityMismatch(field) =>
      && context.Some?
      && (|| (field.MethodologyName? && !IsFact(facts, field, context.value.methodologyFact))
          || (field.MethodologyVersion? && !IsFact(facts, field, context.value.versionFact))
          || (field in context.value.periodFacts && !IsFact(facts, field, context.value.periodFacts[field])))
    case ContextEvidenceNotGrounded =>
      && context.Some?
      && exists i :: 0 <= i < |context.value.evidence| && !ContextGrounded(facts, documents, context.value.evidence[i])
  }

  /** One gate per bound period field whose fact is another one, in the order of the binding. */
  function PeriodGates(facts: Facts, bindings: map<Field, Id>, order: seq<Field>): seq<Gate> {
    if order == [] then []
    else
      var last := order[|order| - 1];
      PeriodGates(facts, bindings, order[..|order| - 1])
      + if last in bindings && !IsFact(facts, last, bindings[last]) then [FactIdentityMismatch(last)] else []
  }

  /** One gate per reference that is not grounded. */
  function EvidenceGates(facts: Facts, documents: Documents, evidence: seq<Evidence>): seq<Gate> {
    if evidence == [] then []
    else
      EvidenceGates(facts, documents, evidence[..|evidence| - 1])
      + if ContextGrounded(facts, documents, evidence[|evidence| - 1]) then [] else [ContextEvidenceNotGrounded]
  }

  function When(raised: bool, gate: Gate): seq<Gate> { if raised then [gate] else [] }

  function ContextGateList(facts: Facts, c: Context, documents: Documents): seq<Gate> {
    When(!c.authorityConfirmed, AuthorityNotConfirmed)
    + When(!IsFact(facts, MethodologyName, c.methodologyFact), FactIdentityMismatch(MethodologyName))
    + When(!IsFact(facts, MethodologyVersion, c.versionFact), FactIdentityMismatch(MethodologyVersion))
    + PeriodGates(facts, c.periodFacts, c.periodOrder) + EvidenceGates(facts, documents, c.evidence)
  }

  /** All gates, in the order and as often as they are appended. */
  function GateList(facts: Facts, context: Option<Context>, documents: Documents): seq<Gate> {
    When(Raised(MethodologyUnconfirmed, facts, context, documents), MethodologyUnconfirmed)
    + When(Raised(VersionMissing, facts, context, documents), VersionMissing)
    + if context.None? then [ContextMissing] else ContextGateList(facts, context.value, documents)
  }

  lemma {:induction false} InPeriodGates(facts: Facts, bindings: map<Field, Id>, order: seq<Field>, g: Gate)
    ensures g in PeriodGates(facts, bindings, order) <==>
      g.FactIdentityMismatch? && g.field in order && g.field in bindings && !IsFact(facts, g.field, bindings[g.field])
  {
    if order != [] {
      var front, last := order[..|order| - 1], order[|order| - 1];
      InPeriodGates(facts, bindings, front, g);
      hide IsFact;
      assert forall f :: f in order <==> f in front || f == last;
    }
  }

  lemma {:induction false} InEvidenceGates(facts: Facts, documents: Documents, evidence: seq<Evidence>, g: Gate)
    ensures g in EvidenceGates(facts, documents, evidence) <==>
      g.ContextEvidenceNotGrounded? && exists i :: 0 <= i < |evidence| && !ContextGrounded(facts, documents, evidence[i])
  {
    hide ContextGrounded;
    if evidence != [] {
      var front := evidence[..|evidence| - 1];
      InEvidenceGates(facts, documents, front, g);
      assert forall i :: 0 <= i < |front| ==> front[i] == evidence[i];
    }
  }

  lemma InContextGates(facts: Facts, c: Context, documents: Documents, g: Gate)
    ensures g in ContextGateList(facts, c, documents) <==>
      || (g.AuthorityNotConfirmed? && !c.authorityConfirmed)
      || (g == FactIdentityMismatch(MethodologyName) && !IsFact(facts, MethodologyName, c.methodologyFact))
      || (g == FactIdentityMismatch(MethodologyVersion) && !IsFact(facts, MethodologyVersion, c.versionFact))
      || g in PeriodGates(facts, c.periodFacts, c.periodOrder)
      || g in EvidenceGates(facts, documents, c.evidence)
  {
    hide IsFact, PeriodGates, EvidenceGates;
  }

  lemma InGateList(facts: Facts, context: Option<Context>, documents: Documents, g: Gate)
    ensures g in GateList(facts, context, documents) <==>
      || (g.MethodologyUnconfirmed? && Raised(g, facts, context, documents))
      || (g.VersionMissing? && Raised(g, facts, context, documents))
      || (if context.None? then g.ContextMissing? else g in ContextGateList(facts, context.value, documents))
  {
    hide Raised, ContextGateList;
  }

  /** A gate is in the list exactly when it is raised. */
  lemma GateListRaised(facts: Facts, context: Option<Context>, documents: Documents, g: Gate)
    requires context.Some? ==> context.value.Valid()
    ensures g in GateList(facts, context, documents) <==> Raised(g, facts, context, documents)
  {
    hide ContextGrounded, IsFact, GateList, ContextGateList, PeriodGates, EvidenceGates;
    InGateList(facts, context, documents, g);
    if context.Some? {
      InContextGates(facts, context.value, documents, g);
      InPeriodGates(facts, context.value.periodFacts, context.value.periodOrder, g);
      InEvidenceGates(facts, documents, context.value.evidence, g);
    }
  }

  lemma GatesAreRaised(facts: Facts, context: Option<Context>, documents: Documents)
    requires context.Some? ==> context.value.Valid()
    ensures forall g :: g in GateList(facts, context, documents) <==> Raised(g, facts, context, documents)
  {
    hide GateList, Raised;
    forall g
      ensures g in GateList(facts, context, documents) <==> Raised(g, facts, context, documents)
    {
      GateListRaised(facts, context, documents, g);
    }
  }

  /** The loop over the bound period fields. */
  method CheckPeriodFacts(facts: Facts, bindings: map<Field, Id>, order: seq<Field>) returns (gates: seq<Gate>)
    requires forall f :: f in order ==> f in bindings
    ensures gates == PeriodGates(facts, bindings, order)
  {
    hide IsFact;
    gates := [];
    for i := 0 to |order|
      invariant gates == PeriodGates(facts, bindings, order[..i])
    {
      assert order[..i + 1][..i] == order[..i] && order[i] in order;
      if !IsFact(facts, order[i], bindings[order[i]]) {
        gates := gates + [FactIdentityMismatch(order[i])];
      }
    }
    assert order[..|order|] == order;
  }

  /** The loop over the context's references. */
  method CheckContextEvidence(facts: Facts, documents: Documents, evidence: seq<Evidence>) returns (gates: seq<Gate>)
    ensures gates == EvidenceGates(facts, documents, evidence)
  {
    hide ContextGrounded;
    gates := [];
    for i := 0 to |evidence|
      invariant gates == EvidenceGates(facts, documents, evidence[..i])
    {
      assert evidence[..i + 1][..i] == evidence[..i];
      if !ContextGrounded(facts, documents, evidence[i]) {
        gates := gates + [ContextEvidenceNotGrounded];
      }
    }
    assert evidence[..|evidence|] == evidence;
  }

  /** The gates that only a context can raise, appended in the order they are checked. */
  method ContextGates(facts: Facts, context: Context, documents: Documents) returns (gates: seq<Gate>)
    requires context.Valid()
    ensures gates == ContextGateList(facts, context, documents)
  {
    hide IsFact, PeriodGates, EvidenceGates;
    gates := [];
    if !context.authorityConfirmed {
      gates := gates + [AuthorityNotConfirmed];
    }
    if !IsFact(facts, MethodologyName, context.methodologyFact) {
      gates := gates + [FactIdentityMismatch(MethodologyName)];
    }
    if !IsFact(facts, MethodologyVersion, context.versionFact) {
      gates := gates + [FactIdentityMismatch(MethodologyVersion)];
    }
    assert gates ==
      When(!context.authorityConfirmed, AuthorityNotConfirmed)
      + When(!IsFact(facts, MethodologyName, context.methodologyFact), FactIdentityMismatch(MethodologyName))
      + When(!IsFact(facts, MethodologyVersion, context.versionFact), FactIdentityMismatch(MethodologyVersion));
    hide When;
    var period := CheckPeriodFacts(facts, context.periodFacts, context.periodOrder);
    var evidence := CheckContextEvidence(facts, documents, context.evidence);
    gates := gates + period + evidence;
  }

  /** The gates as a list; as a set they are exactly the raised ones. */
  method CheckGates(facts: Facts, context: Option<Context>, documents: Documents) returns (gates: seq<Gate>)
    requires context.Some? ==> context.value.Valid()
    ensures gates == GateList(facts, context, documents)
    ensures forall g :: g in gates <==> Raised(g, facts, context, documents)
  {
    hide ContextGateList;
    gates := [];
    if !(MethodologyName in facts && facts[MethodologyName].value == JStr("ACM0002")) {
      gates := gates + [MethodologyUnconfirmed];
    }
    if !(MethodologyVersion in facts && facts[MethodologyVersion].value.JStr? && !Blank(facts[MethodologyVersion].value.s)) {
      gates := gates + [VersionMissing];
    }
    var more := [ContextMissing];
    if context.Some? {
      more := ContextGates(facts, context.value, documents);
    }
    gates := gates + more;
    assert gates == GateList(facts, context, documents);
    hide Raised, GateList;
    GatesAreRaised(facts, context, documents);
  }

  // ----- The diagnostic

  datatype Diagnostic =
    | Withheld
    | NotNumeric
    | Computed(recalculated: Dec, residual: Dec, percentage: Option<Dec>)

  predicate Measurable(facts: Facts, field: Field)
    requires field in facts
  {
    && (facts[field].value.JInt? || facts[field].value.JFloat?)
    && 0 <= facts[field].value.AsDec().coef
    && facts[field].unit == Some("tCO2e")
  }

  predicate PeriodBound(context: Option<Context>) {
    context.Some? && forall i :: 0 <= i < |ER_FIELDS| ==> ER_FIELDS[i] in context.value.periodFacts
  }

  function Recalculate(be: Dec, pe: Dec, le: Dec): Dec { Subtract(Subtract(be, pe), le) }

  predicate AllAmounts(facts: Facts) { forall i :: 0 <= i < |ER_FIELDS| ==> ER_FIELDS[i] in facts }

  predicate AllMeasurable(facts: Facts) {
    forall i :: 0 <= i < |ER_FIELDS| ==> ER_FIELDS[i] in facts && Measurable(facts, ER_FIELDS[i])
  }

  /** Which diagnostic comes out, and the numbers of a computed one as functions of the four amounts. */
  predicate DiagnosisOf(facts: Facts, clear: bool, context: Option<Context>, d: Diagnostic) {
    && (d.Withheld? <==> !(clear && PeriodBound(context) && AllAmounts(facts)))
    && (d.NotNumeric? ==> AllAmounts(facts) && !AllMeasurable(facts))
    && (d.Computed? ==>
          && AllMeasurable(facts)
          && d.recalculated == Recalculate(Amount(facts, 0), Amount(facts, 1), Amount(facts, 2))
          && d.residual == Subtract(Amount(facts, 3), d.recalculated)
          && (d.percentage.None? <==> Amount(facts, 3).coef == 0)
          && (d.percentage.Some? ==> d.percentage.value == Percentage(d.residual, Amount(facts, 3))))
  }

  method Diagnose(facts: Facts, gates: seq<Gate>, context: Option<Context>) returns (d: Diagnostic)
    ensures DiagnosisOf(facts, gates == [], context, d)
  {
    hide Subtract, Percentage;
    if gates != [] || !PeriodBound(context) || !AllAmounts(facts) {
      return Withheld;
    }
    if !AllMeasurable(facts) {
      return NotNumeric;
    }
    var be, pe, le, reported := Amount(facts, 0), Amount(facts, 1), Amount(facts, 2), Amount(facts, 3);
    var calculated := Subtract(Subtract(be, pe), le);
    var residual := Subtract(reported, calculated);
    var percentage := if reported.coef == 0 then None else Some(Percentage(residual, reported));
    d := Computed(calculated, residual, percentage);
  }

  function Amount(facts: Facts, i: nat): (amount: Dec)
    requires i < |ER_FIELDS| && ER_FIELDS[i] in facts && Measurable(facts, ER_FIELDS[i])
    ensures amount.coef >= 0
  {
    facts[ER_FIELDS[i]].value.AsDec()
  }

  datatype CheckedDimension = CheckedDimension(dimension: nat, missing: seq<Field>, unbound: seq<Field>, blocked: bool)

  datatype Checks = Checks(gates: seq<Gate>, dimensions: seq<CheckedDimension>, diagnostic: Diagnostic)

  function PeriodFields(dimension: nat): seq<Field> {
    if dimension == 5 then [ElectricityGeneratedMwh, ElectricityExportedMwh]
    else if dimension == 6 then [PeValueTco2e]
    else if dimension == 7 then [LeValueTco2e]
    else if dimension == 8 then ER_FIELDS
    else []
  }

  function Unbound(fields: seq<Field>, context: Option<Context>): seq<Field> {
    if fields == [] then []
    else
      var last := fields[|fields| - 1];
      Unbound(fields[..|fields| - 1], context) +
      (if context.None? || last !in context.value.periodFacts then [last] else [])
  }

  predicate DimensionChecked(d: Dimension, context: Option<Context>, clear: bool, c: CheckedDimension) {
    && c.dimension == d.dimension && c.missing == d.missing
    && c.unbound == Unbound(PeriodFields(d.dimension), context)
    && (c.blocked <==> !clear || c.missing != [] || c.unbound != [])
  }

  ghost predicate ChecksOf(readiness: Readiness, context: Option<Context>, documents: Documents, r: Checks) {
    && r.gates == GateList(readiness.facts, context, documents)
    && |r.dimensions| == |readiness.dimensions|
    && (forall i :: 0 <= i < |r.dimensions| ==>
          DimensionChecked(readiness.dimensions[i], context, r.gates == [], r.dimensions[i]))
    && DiagnosisOf(readiness.facts, r.gates == [], context, r.diagnostic)
  }

  /** `check_business_inputs` */
  method CheckBusinessInputs(readiness: Readiness, context: Option<Context>, documents: Documents) returns (r: Checks)
    requires context.Some? ==> context.value.Valid()
    ensures ChecksOf(readiness, context, documents, r)
  {
    hide Raised, Subtract, GateList;
    var gates := CheckGates(readiness.facts, context, documents);
    var dimensions: seq<CheckedDimension> := [];
    for i := 0 to |readiness.dimensions|
      invariant |dimensions| == i
      invariant forall k :: 0 <= k < i ==> DimensionChecked(readiness.dimensions[k], context, gates == [], dimensions[k])
    {
      var d := readiness.dimensions[i];
      var unbound := Unbound(PeriodFields(d.dimension), context);
      dimensions := dimensions +
        [CheckedDimension(d.dimension, d.missing, unbound, gates != [] || d.missing != [] || unbound != [])];
    }
    var diagnostic := Diagnose(readiness.facts, gates, context);
    r := Checks(gates, dimensions, diagnostic);
  }

  // ----- Properties

  /** Canonical ER amounts are non-negative tonnes, so the numeric fallback has nothing to catch. */
  lemma CanonicalAmountsMeasurable(db: Db, facts: Facts, i: nat)
    requires i < |ER_FIELDS| && ER_FIELDS[i] in facts
    requires ReadyFactSound(db, ER_FIELDS[i], facts[ER_FIELDS[i]])
    ensures Measurable(facts, ER_FIELDS[i])
  {
    var f := facts[ER_FIELDS[i]];
    hide PyEqual, Grounded, IsSpace, ParseDate, DateShaped;
    assert KindOf(ER_FIELDS[i]) == Number && ExpectedUnit(ER_FIELDS[i]) == Some("tCO2e");
    assert KindFits(Number, false, f.value);
  }

  /** With no gate raised and the ER period fully bound, all four amounts are there. */
  lemma NoGateMeansAllAmounts(facts: Facts, context: Option<Context>, documents: Documents)
    requires forall g :: !Raised(g, facts, context, documents)
    requires PeriodBound(context)
    ensures AllAmounts(facts)
  {
    forall i | 0 <= i < |ER_FIELDS|
      ensures ER_FIELDS[i] in facts
    {
      assert !Raised(FactIdentityMismatch(ER_FIELDS[i]), facts, context, documents);
    }
  }

  /**
   For a project read from any sound store: if no gate is raised and the period is bound, the diagnostic is
   computed; it is never the numeric fallback.
   */
  lemma DiagnosticAlwaysComputed(db: Db, h: History, readiness: Readiness, context: Option<Context>, documents: Documents, r: Checks)
    requires Sound(db, h) && FactsOfHeads(db, readiness.registry, readiness.project, readiness.facts)
    requires context.Some? ==> context.value.Valid()
    requires ChecksOf(readiness, context, documents, r)
    ensures !r.diagnostic.NotNumeric?
    ensures r.gates == [] && PeriodBound(context) ==> r.diagnostic.Computed?
  {
    hide Raised, Sound, FactsOfHeads, Measurable, ReadyFactSound, GateList;
    AuditedFactsSound(db, h, readiness.registry, readiness.project, readiness.facts);
    forall i | 0 <= i < |ER_FIELDS| && ER_FIELDS[i] in readiness.facts
      ensures Measurable(readiness.facts, ER_FIELDS[i])
    {
      CanonicalAmountsMeasurable(db, readiness.facts, i);
    }
    if r.gates == [] && PeriodBound(context) {
      forall g
        ensures !Raised(g, readiness.facts, context, documents)
      {
        GateListRaised(readiness.facts, context, documents, g);
      }
      NoGateMeansAllAmounts(readiness.facts, context, documents);
    }
  }

  /**
   The residual closes the identity: reported = recalculated + residual up to half a unit in the residual's
   38th digit, and exactly when the difference needs no more than 38 digits.
   */
  lemma IdentityCloses(reported: Dec, calculated: Dec, unit: int)
    requires unit <= reported.exp && unit <= calculated.exp
    ensures unit <= Subtract(reported, calculated).exp
    ensures
      var r, c, residual := Scaled(reported, unit), Scaled(calculated, unit), Scaled(Subtract(reported, calculated), unit);
      && 2 * Abs(c + residual - r) * Pow10(PRECISION - 1) <= Abs(r - c)
      && (Abs(Difference(reported, calculated).coef) < Pow10(PRECISION) ==> r == c + residual)
  {
    hide Subtract, Pow10, Difference, Scaled;
    SubtractError(reported, calculated, unit);
  }

  /**
   The whole statement for a project read from a reachable store: with no gate and the period bound the
   diagnostic is computed; recalculated plus residual is the reported amount up to half a unit in the residual's
   38th digit, and exactly when no rounding occurs; there is no percentage exactly when zero is reported, and
   otherwise the percentage of the reported amount is the residual up to half a unit in the percentage's 38th digit.
   */
  lemma DiagnosticCloses(events: seq<Event>, readiness: Readiness, context: Option<Context>, documents: Documents, r: Checks, unit: int)
    requires FactsOfHeads(Reached(events), readiness.registry, readiness.project, readiness.facts)
    requires context.Some? && context.value.Valid() && PeriodBound(context)
    requires ChecksOf(readiness, context, documents, r) && r.gates == []
    ensures r.diagnostic.Computed? && AllMeasurable(readiness.facts)
    ensures
      var facts, d := readiness.facts, r.diagnostic;
      var reported := Amount(facts, 3);
      && d.recalculated == Recalculate(Amount(facts, 0), Amount(facts, 1), Amount(facts, 2))
      && (d.percentage.None? <==> reported.coef == 0)
      && (d.percentage.Some? && unit <= d.percentage.value.exp && unit <= d.residual.exp - reported.exp ==>
            Close(d.percentage.value, TimesHundred(Dec(Abs(d.residual.coef), d.residual.exp)), reported, unit))
      && (unit <= reported.exp && unit <= d.recalculated.exp ==>
            && unit <= d.residual.exp
            && var whole, sum := Scaled(reported, unit), Scaled(d.recalculated, unit) + Scaled(d.residual, unit);
            && 2 * Abs(sum - whole) * Pow10(PRECISION - 1) <= Abs(whole - Scaled(d.recalculated, unit))
            && (Abs(Difference(reported, d.recalculated).coef) < Pow10(PRECISION) ==> sum == whole))
  {
    hide Run, RunHistory, Sound, FactsOfHeads, GateList, Subtract, Pow10, Difference, Scaled, Measurable, DimensionChecked, Percentage, Close;
    ReachedOk(events);
    DiagnosticAlwaysComputed(Reached(events), Chains(events), readiness, context, documents, r);
    var d, reported := r.diagnostic, Amount(readiness.facts, 3);
    if d.percentage.Some? && unit <= d.percentage.value.exp && unit <= d.residual.exp - reported.exp {
      PercentageClose(d.residual, reported, unit);
    }
    if unit <= Amount(readiness.facts, 3).exp && unit <= r.diagnostic.recalculated.exp {
      IdentityCloses(Amount(readiness.facts, 3), r.diagnostic.recalculated, unit);
    }
  }

  /** Likewise BE - PE - LE: two roundings, each of half a unit in the 38th digit of its own difference. */
  lemma RecalculationError(be: Dec, pe: Dec, le: Dec, unit: int)
    requires unit <= be.exp && unit <= pe.exp && unit <= le.exp
    ensures unit <= Subtract(be, pe).exp && unit <= Recalculate(be, pe, le).exp
    ensures
      var exact := Scaled(be, unit) - Scaled(pe, unit) - Scaled(le, unit);
      var first := Scaled(Subtract(be, pe), unit);
      2 * Abs(Scaled(Recalculate(be, pe, le), unit) - exact) * Pow10(PRECISION - 1)
        <= Abs(Scaled(be, unit) - Scaled(pe, unit)) + Abs(first - Scaled(le, unit))
  {
    hide Subtract, Pow10, Scaled;
    SubtractError(be, pe, unit);
    SubtractError(Subtract(be, pe), le, unit);
    ErrorsAdd(Scaled(be, unit) - Scaled(pe, unit), Scaled(Subtract(be, pe), unit), Scaled(le, unit),
              Scaled(Recalculate(be, pe, le), unit), Pow10(PRECISION - 1));
  }

  /** No rounding at all when both exact differences fit 38 digits. */
  lemma RecalculationExact(be: Dec, pe: Dec, le: Dec, unit: int)
    requires unit <= be.exp && unit <= pe.exp && unit <= le.exp
    requires Abs(Difference(be, pe).coef) < Pow10(PRECISION)
    requires Abs(Difference(Difference(be, pe), le).coef) < Pow10(PRECISION)
    ensures unit <= Recalculate(be, pe, le).exp
    ensures Scaled(Recalculate(be, pe, le), unit) == Scaled(be, unit) - Scaled(pe, unit) - Scaled(le, unit)
  {
    hide Round, Pow10, Difference, Scaled;
    RoundExact(Difference(be, pe));
    DifferenceExact(be, pe, unit);
    SubtractError(Difference(be, pe), le, unit);
  }

  /** `x` is off from `a` and `y` from `x - b`, each by a k-th of half the value: the errors add up. */
  lemma ErrorsAdd(a: int, x: int, b: int, y: int, k: int)
    requires 0 <= k && 2 * Abs(x - a) * k <= Abs(a) && 2 * Abs(y - (x - b)) * k <= Abs(x - b)
    ensures 2 * Abs(y - (a - b)) * k <= Abs(a) + Abs(x - b)
  {
    var e1, e2 := Abs(x - a), Abs(y - (x - b));
    TimesMonotone(2 * Abs(y - (a - b)), 2 * e1 + 2 * e2, k);
    SumTimes(2 * e1, 2 * e2, k);
  }

  lemma SumTimes(a: int, b: int, k: int)
    ensures (a + b) * k == a * k + b * k
  {
  }

  // ----- What the absence of gates means

  /** The reference is exact text of the document some fact of the project was read from. */
  lemma ContextGroundedIff(facts: Facts, documents: Documents, e: Evidence)
    ensures ContextGrounded(facts, documents, e) <==>
      exists f :: f in facts && facts[f].parsed in documents && Grounded(documents[facts[f].parsed].document, e)
  {
    if e.start.Some? && e.end.Some? {
      forall f | f in facts
        ensures !Blank(e.quote) && QuotedIn(facts[f].parsed, documents, e) <==>
          facts[f].parsed in documents && Grounded(documents[facts[f].parsed].document, e)
      {
      }
    }
    hide Blank, Slice;
  }

  /** The context binds exactly the facts the project has now, and quotes them. */
  ghost predicate Bound(facts: Facts, documents: Documents, c: Context) {
    && c.authorityConfirmed
    && MethodologyName in facts && facts[MethodologyName].fact == c.methodologyFact
    && MethodologyVersion in facts && facts[MethodologyVersion].fact == c.versionFact
    && (forall f :: f in c.periodFacts ==> f in facts && facts[f].fact == c.periodFacts[f])
    && forall i :: 0 <= i < |c.evidence| ==> Quotes(facts, documents, c.evidence[i])
  }

  ghost predicate Quotes(facts: Facts, documents: Documents, e: Evidence) {
    exists f :: f in facts && facts[f].parsed in documents && Grounded(documents[facts[f].parsed].document, e)
  }

  lemma BoundIff(facts: Facts, c: Context, documents: Documents)
    requires forall i :: 0 <= i < |c.evidence| ==>
      (ContextGrounded(facts, documents, c.evidence[i]) <==> Quotes(facts, documents, c.evidence[i]))
    ensures Bound(facts, documents, c) <==>
      && !Raised(AuthorityNotConfirmed, facts, Some(c), documents) && !Raised(ContextEvidenceNotGrounded, facts, Some(c), documents)
      && forall f :: !Raised(FactIdentityMismatch(f), facts, Some(c), documents)
  {
    hide ContextGrounded, Quotes;
    if forall f :: !Raised(FactIdentityMismatch(f), facts, Some(c), documents) {
      assert !Raised(FactIdentityMismatch(MethodologyName), facts, Some(c), documents);
      assert !Raised(FactIdentityMismatch(MethodologyVersion), facts, Some(c), documents);
      forall f | f in c.periodFacts
        ensures IsFact(facts, f, c.periodFacts[f])
      {
        assert !Raised(FactIdentityMismatch(f), facts, Some(c), documents);
      }
    }
  }

  lemma NoneRaised(facts: Facts, context: Option<Context>, documents: Documents)
    ensures (forall g :: !Raised(g, facts, context, documents)) <==>
      && !Raised(MethodologyUnconfirmed, facts, context, documents) && !Raised(VersionMissing, facts, context, documents)
      && !Raised(ContextMissing, facts, context, documents) && !Raised(AuthorityNotConfirmed, facts, context, documents)
      && !Raised(ContextEvidenceNotGrounded, facts, context, documents)
      && forall f :: !Raised(FactIdentityMismatch(f), facts, context, documents)
  {
    hide Raised;
    if exists g :: Raised(g, facts, context, documents) {
      var g :| Raised(g, facts, context, documents);
      assert g.FactIdentityMismatch? ==> Raised(FactIdentityMismatch(g.field), facts, context, documents);
    }
  }

  /** No gate is raised exactly for an ACM0002 project with a version, whose context binds the facts it has now. */
  lemma NoGatesIff(facts: Facts, context: Option<Context>, documents: Documents)
    requires context.Some? ==> context.value.Valid()
    ensures GateList(facts, context, documents) == [] <==>
      && MethodologyName in facts && facts[MethodologyName].value == JStr("ACM0002")
      && MethodologyVersion in facts && facts[MethodologyVersion].value.JStr? && !Blank(facts[MethodologyVersion].value.s)
      && context.Some? && Bound(facts, documents, context.value)
  {
    var gates := GateList(facts, context, documents);
    GatesAreRaised(facts, context, documents);
    assert gates == [] <==> forall g :: !Raised(g, facts, context, documents) by {
      hide GateList, Raised;
      if gates != [] { assert gates[0] in gates; }
    }
    NoneRaised(facts, context, documents);
    hide GateList, ContextGrounded, Bound, Quotes, Blank;
    if context.Some? {
      var c := context.value;
      forall i | 0 <= i < |c.evidence|
        ensures ContextGrounded(facts, documents, c.evidence[i]) <==> Quotes(facts, documents, c.evidence[i])
      {
        ContextIsQuoted(facts, documents, c.evidence[i]);
      }
      BoundIff(facts, c, documents);
    }
  }

  lemma ContextIsQuoted(facts: Facts, documents: Documents, e: Evidence)
    ensures ContextGrounded(facts, documents, e) <==> Quotes(facts, documents, e)
  {
    ContextGroundedIff(facts, documents, e);
    hide ContextGrounded;
  }

  lemma {:induction false} UnboundMeans(fields: seq<Field>, context: Option<Context>, f: Field)
    ensures f in Unbound(fields, context) <==> f in fields && (context.None? || f !in context.value.periodFacts)
  {
    if fields != [] {
      var front, last := fields[..|fields| - 1], fields[|fields| - 1];
      UnboundMeans(front, context, f);
      assert f in fields <==> f in front || f == last;
    }
  }

  /** The fields whose period a dimension needs: electricity, project emissions, leakage, and the four amounts. */
  predicate NeedsPeriod(dimension: nat, f: Field) {
    || (dimension == 5 && f in {ElectricityGeneratedMwh, ElectricityExportedMwh})
    || (dimension == 6 && f == PeValueTco2e) || (dimension == 7 && f == LeValueTco2e)
    || (dimension == 8 && f in {BeValueTco2e, PeValueTco2e, LeValueTco2e, ErReportedTco2e})
  }

  lemma UnboundIff(dimension: nat, context: Option<Context>, f: Field)
    ensures f in Unbound(PeriodFields(dimension), context) <==>
      NeedsPeriod(dimension, f) && (context.None? || f !in context.value.periodFacts)
  {
    UnboundMeans(PeriodFields(dimension), context, f);
    hide Unbound;
  }

  lemma NoneIff<T>(s: seq<T>)
    ensures s != [] <==> exists x :: x in s
  {
    if s != [] { assert s[0] in s; }
  }

  /** A dimension is blocked exactly by a gate, by an input without a fact or by a period that is not bound. */
  lemma DimensionBlockedIff(rule: Rule, facts: Facts, d: Dimension, context: Option<Context>, clear: bool, c: CheckedDimension)
    requires DimensionOf(d, rule, facts) && DimensionChecked(d, context, clear, c)
    ensures c.dimension == rule.dimension
    ensures forall f :: f in c.missing <==> f in rule.inputs && f !in facts
    ensures forall f :: f in c.unbound <==> NeedsPeriod(rule.dimension, f) && (context.None? || f !in context.value.periodFacts)
    ensures c.blocked <==> !clear || (exists f :: f in c.missing) || exists f :: f in c.unbound
  {
    PresentOrAbsent(rule.inputs, facts);
    hide Absent, Present, PeriodFields, NeedsPeriod, Unbound;
    NoneIff(c.missing);
    NoneIff(c.unbound);
    forall f
      ensures f in c.unbound <==> NeedsPeriod(rule.dimension, f) && (context.None? || f !in context.value.periodFacts)
    {
      UnboundIff(rule.dimension, context, f);
    }
  }

  /** An amount the diagnostic computes with: a number that is not negative, in tonnes. */
  predicate InTonnes(f: ReadyFact) {
    f.unit == Some("tCO2e") && match f.value case JInt(n) => 0 <= n case JFloat(d) => 0 <= d.coef case _ => false
  }

  predicate AllFour(fields: set<Field>) {
    BeValueTco2e in fields && PeValueTco2e in fields && LeValueTco2e in fields && ErReportedTco2e in fields
  }

  lemma FourFields()
    ensures |ER_FIELDS| == 4 && ER_FIELDS[0] == BeValueTco2e && ER_FIELDS[1] == PeValueTco2e
    ensures ER_FIELDS[2] == LeValueTco2e && ER_FIELDS[3] == ErReportedTco2e
  {
  }

  lemma FourMeasurable(facts: Facts)
    requires AllFour(facts.Keys)
    ensures AllAmounts(facts)
    ensures AllMeasurable(facts) <==>
      && InTonnes(facts[BeValueTco2e]) && InTonnes(facts[PeValueTco2e])
      && InTonnes(facts[LeValueTco2e]) && InTonnes(facts[ErReportedTco2e])
  {
    FourFields();
    assert Measurable(facts, BeValueTco2e) <==> InTonnes(facts[BeValueTco2e]);
    assert Measurable(facts, PeValueTco2e) <==> InTonnes(facts[PeValueTco2e]);
    assert Measurable(facts, LeValueTco2e) <==> InTonnes(facts[LeValueTco2e]);
    assert Measurable(facts, ErReportedTco2e) <==> InTonnes(facts[ErReportedTco2e]);
    hide Measurable, InTonnes;
  }

  lemma FourBound(facts: Facts, context: Option<Context>)
    ensures AllAmounts(facts) <==> AllFour(facts.Keys)
    ensures PeriodBound(context) <==> context.Some? && AllFour(context.value.periodFacts.Keys)
  {
    FourFields();
  }

  /** With no gate, the period bound and all four amounts there, the diagnostic is computed iff all are in tonnes. */
  lemma DiagnosisMeans(facts: Facts, clear: bool, context: Option<Context>, d: Diagnostic)
    requires DiagnosisOf(facts, clear, context, d)
    ensures d.Withheld? <==> !(clear && context.Some? && AllFour(context.value.periodFacts.Keys) && AllFour(facts.Keys))
    ensures !d.Withheld? ==>
      (d.Computed? <==>
        && InTonnes(facts[BeValueTco2e]) && InTonnes(facts[PeValueTco2e])
        && InTonnes(facts[LeValueTco2e]) && InTonnes(facts[ErReportedTco2e]))
  {
    FourBound(facts, context);
    if !d.Withheld? { FourMeasurable(facts); }
    hide AllAmounts, AllMeasurable, PeriodBound, AllFour, InTonnes, Recalculate, Subtract, Percentage;
  }
}
