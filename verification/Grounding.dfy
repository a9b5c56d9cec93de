/**
 Turning an untrusted model reply into evidence-bearing observations, and the later re-checks of
 that evidence.
 */
module Grounding {
  import opened Wrappers
  import opened Fields
  import opened Text
  import opened Domain
  import opened Sorting
  import Validation

  // ----- Selecting pages

  datatype GroundError =
    | BadRequestedFields
    | BadPageSelection | PageOutsideDocument | PageBudget | CharacterBudget | NoText
    | MalformedReply | CoverageMismatch
    | UnselectedPage | QuoteAbsent | QuoteAmbiguous
    | InvalidExtraction

  const MAX_PAGES := 8
  const MAX_CHARACTERS := 24000

  function SetOf<T>(s: seq<T>): set<T> { set x | x in s }

  /** Characters on the selected pages, counted in page order. */
  function TotalFrom(texts: seq<string>, pages: set<int>, k: nat): nat
    requires k <= |texts|
    decreases |texts| - k
  {
    if k == |texts| then 0
    else (if k + 1 in pages then |texts[k]| else 0) + TotalFrom(texts, pages, k + 1)
  }

  /** `select_pages`: the accepted selection, or the first reason to refuse it. */
  function SelectPages(parsed: ParsedDocument, numbers: seq<int>): (r: Result<set<int>, GroundError>)
    ensures r.Ok? ==> r.value == SetOf(numbers) && forall p :: p in r.value ==> 1 <= p <= |parsed.pages|
  {
    if numbers == [] || !Distinct(numbers) then Err(BadPageSelection)
    else if exists i :: 0 <= i < |numbers| && !(1 <= numbers[i] <= |parsed.pages|) then Err(PageOutsideDocument)
    else if |numbers| > MAX_PAGES then Err(PageBudget)
    else
      var pages := SetOf(numbers);
      if TotalFrom(parsed.pages, pages, 0) > MAX_CHARACTERS then Err(CharacterBudget)
      else if forall p :: p in pages ==> Blank(parsed.pages[p - 1]) then Err(NoText)
      else Ok(pages)
  }

  // ----- Grounding a reply

  datatype ModelQuote = ModelQuote(page: int, quote: string) {
    predicate Valid() { 1 <= page && quote != "" }
  }

  datatype ModelObservation = ModelObservation(
    field: Field, raw: Option<string>, value: Json, unit: Option<string>, quotes: seq<ModelQuote>,
    missing: Option<Missing>)
  {
    predicate Valid() {
      && (raw.Some? ==> raw.value != "")
      && (unit.Some? ==> unit.value != "")
      && (forall i :: 0 <= i < |quotes| ==> quotes[i].Valid())
      && (missing.None? ==> raw.Some? && value != JNull && quotes != [])
      && (missing.Some? ==> raw.None? && value == JNull && !missing.value.UnsupportedByBaseline?)
    }
  }

  /** The reply as decoded by the response schema; None when it does not decode. */
  type Reply = Option<seq<ModelObservation>>

  predicate ValidReply(reply: Reply) {
    reply.Some? ==> reply.value != [] && forall i :: 0 <= i < |reply.value| ==> reply.value[i].Valid()
  }

  datatype Job = Job(
    parsed: ParsedDocument, pages: seq<int>, fields: seq<Field>, project: string, registry: Registry,
    run: Id, extractorName: string, extractorVersion: string, now: Time)

  const NOTES := ["semantic_validation_pending", "selected_pages_only"]

  function FieldsOf(items: seq<ModelObservation>): set<Field> {
    set i | 0 <= i < |items| :: items[i].field
  }

  function GroundQuote(parsed: ParsedDocument, selected: set<int>, q: ModelQuote): Result<Evidence, GroundError>
    requires forall p :: p in selected ==> 1 <= p <= |parsed.pages|
  {
    if q.page !in selected then Err(UnselectedPage)
    else
      var text := parsed.pages[q.page - 1];
      var start := Find(text, q.quote, 0);
      if start < 0 then Err(QuoteAbsent)
      else if Find(text, q.quote, start + 1) >= 0 then Err(QuoteAmbiguous)
      else Ok(Evidence(parsed.version, q.page, q.quote, Some(start), Some(start + |q.quote|)))
  }

  function GroundQuotes(parsed: ParsedDocument, selected: set<int>, quotes: seq<ModelQuote>)
    : (r: Result<seq<Evidence>, GroundError>)
    requires forall p :: p in selected ==> 1 <= p <= |parsed.pages|
  {
    if quotes == [] then Ok([])
    else
      var last := |quotes| - 1;
      match GroundQuotes(parsed, selected, quotes[..last])
      case Err(e) => Err(e)
      case Ok(front) =>
        match GroundQuote(parsed, selected, quotes[last])
        case Err(e) => Err(e)
        case Ok(evidence) => Ok(front + [evidence])
  }

  function GroundItems(parsed: ParsedDocument, selected: set<int>, items: seq<ModelObservation>)
    : (r: Result<seq<Observation>, GroundError>)
    requires forall p :: p in selected ==> 1 <= p <= |parsed.pages|
  {
    if items == [] then Ok([])
    else
      var last := |items| - 1;
      match GroundItems(parsed, selected, items[..last])
      case Err(e) => Err(e)
      case Ok(front) =>
        match GroundQuotes(parsed, selected, items[last].quotes)
        case Err(e) => Err(e)
        case Ok(evidence) => Ok(front + [Observed(items[last], evidence)])
  }

  function Observed(item: ModelObservation, evidence: seq<Evidence>): Observation {
    Observation(item.field, item.raw, item.value, item.unit, None, evidence, item.missing, NOTES)
  }

  function Grounding(reply: Reply, job: Job): (r: Result<Extraction, GroundError>)
  {
    if job.fields == [] || !Distinct(job.fields) then Err(BadRequestedFields)
    else match SelectPages(job.parsed, job.pages)
      case Err(e) => Err(e)
      case Ok(selected) =>
        if reply.None? then Err(MalformedReply)
        else if FieldsOf(reply.value) != SetOf(job.fields) then Err(CoverageMismatch)
        else match GroundItems(job.parsed, selected, reply.value)
          case Err(e) => Err(e)
          case Ok(observations) =>
            if job.project == "" || job.extractorName == "" || job.extractorVersion == "" then Err(InvalidExtraction)
            else Ok(Extraction(job.project, job.registry, job.parsed.version, job.parsed.id, job.extractorName,
                               job.extractorVersion, Schema110, Some(job.run), job.now, observations))
  }

  /** The inner loop: the quotes of one observation. */
  method GroundAllQuotes(parsed: ParsedDocument, selected: set<int>, quotes: seq<ModelQuote>)
    returns (r: Result<seq<Evidence>, GroundError>)
    requires forall p :: p in selected ==> 1 <= p <= |parsed.pages|
    ensures r == GroundQuotes(parsed, selected, quotes)
  {
    var evidence: seq<Evidence> := [];
    for j := 0 to |quotes|
      invariant GroundQuotes(parsed, selected, quotes[..j]) == Ok(evidence)
    {
      hide GroundQuote;
      assert quotes[..j + 1][..j] == quotes[..j];
      var grounded := GroundQuote(parsed, selected, quotes[j]);
      if grounded.Err? {
        GroundQuotesFail(parsed, selected, quotes, j + 1);
        return Err(grounded.error);
      }
      evidence := evidence + [grounded.value];
    }
    assert quotes[..|quotes|] == quotes;
    r := Ok(evidence);
  }

  /** The outer loop. */
  method GroundAllItems(parsed: ParsedDocument, selected: set<int>, items: seq<ModelObservation>)
    returns (r: Result<seq<Observation>, GroundError>)
    requires forall p :: p in selected ==> 1 <= p <= |parsed.pages|
    ensures r == GroundItems(parsed, selected, items)
  {
    var observations: seq<Observation> := [];
    for i := 0 to |items|
      invariant GroundItems(parsed, selected, items[..i]) == Ok(observations)
    {
      var item := items[i];
      assert items[..i + 1][..i] == items[..i];
      hide GroundQuotes, Observed;
      var evidence := GroundAllQuotes(parsed, selected, item.quotes);
      if evidence.Err? {
        GroundItemsFail(parsed, selected, items, i + 1);
        return Err(evidence.error);
      }
      observations := observations + [Observed(item, evidence.value)];
    }
    assert items[..|items|] == items;
    r := Ok(observations);
  }

  /** `ground_response`, loop by loop: the first bad quote stops everything. */
  method GroundResponse(reply: Reply, job: Job) returns (r: Result<Extraction, GroundError>)
    ensures r == Grounding(reply, job)
  {
    if job.fields == [] || !Distinct(job.fields) {
      return Err(BadRequestedFields);
    }
    var selection := SelectPages(job.parsed, job.pages);
    if selection.Err? {
      return Err(selection.error);
    }
    var selected := selection.value;
    if reply.None? {
      return Err(MalformedReply);
    }
    var items := reply.value;
    if FieldsOf(items) != SetOf(job.fields) {
      return Err(CoverageMismatch);
    }
    hide GroundItems, FieldsOf, SelectPages;
    var observations := GroundAllItems(job.parsed, selected, items);
    if observations.Err? {
      return Err(observations.error);
    }
    if job.project == "" || job.extractorName == "" || job.extractorVersion == "" {
      return Err(InvalidExtraction);
    }
    return Ok(Extraction(job.project, job.registry, job.parsed.version, job.parsed.id, job.extractorName,
                         job.extractorVersion, Schema110, Some(job.run), job.now, observations.value));
  }

  lemma {:induction false} GroundQuotesFail(parsed: ParsedDocument, selected: set<int>, quotes: seq<ModelQuote>, k: nat)
    requires forall p :: p in selected ==> 1 <= p <= |parsed.pages|
    requires k <= |quotes| && GroundQuotes(parsed, selected, quotes[..k]).Err?
    ensures GroundQuotes(parsed, selected, quotes) == GroundQuotes(parsed, selected, quotes[..k])
    decreases |quotes|
  {
    if k < |quotes| {
      var front := quotes[..|quotes| - 1];
      assert front[..k] == quotes[..k];
      GroundQuotesFail(parsed, selected, front, k);
    } else {
      assert quotes[..k] == quotes;
    }
  }

  lemma {:induction false} GroundItemsFail(parsed: ParsedDocument, selected: set<int>, items: seq<ModelObservation>, k: nat)
    requires forall p :: p in selected ==> 1 <= p <= |parsed.pages|
    requires k <= |items| && GroundItems(parsed, selected, items[..k]).Err?
    ensures GroundItems(parsed, selected, items) == GroundItems(parsed, selected, items[..k])
    decreases |items|
  {
    if k < |items| {
      var front := items[..|items| - 1];
      assert front[..k] == items[..k];
      GroundItemsFail(parsed, selected, front, k);
    } else {
      assert items[..k] == items;
    }
  }

  // ----- When a reply is accepted, and with which spans

  /** The quote occurs on a selected page in one place only, overlapping places included. */
  ghost predicate Locatable(parsed: ParsedDocument, pages: set<int>, q: ModelQuote) {
    && q.page in pages && 1 <= q.page <= |parsed.pages|
    && OccursOnce(parsed.pages[q.page - 1], q.quote)
  }

  /** The evidence is that one place. */
  ghost predicate Locates(parsed: ParsedDocument, pages: set<int>, q: ModelQuote, e: Evidence) {
    && q.page in pages && 1 <= q.page <= |parsed.pages|
    && e.version == parsed.version && e.page == q.page && e.quote == q.quote
    && e.start.Some? && e.end == Some(e.start.value + |q.quote|)
    && OnlyOccurrence(parsed.pages[q.page - 1], q.quote, e.start.value)
  }

  /** Why a quote has no place: its page is not selected, it is nowhere on it, or in several places. */
  function QuoteFault(parsed: ParsedDocument, pages: set<int>, q: ModelQuote): GroundError
    requires q.page in pages ==> 1 <= q.page <= |parsed.pages|
  {
    if q.page !in pages then UnselectedPage
    else if !Occurs(parsed.pages[q.page - 1], q.quote) then QuoteAbsent
    else QuoteAmbiguous
  }

  lemma QuoteGrounded(parsed: ParsedDocument, selected: set<int>, q: ModelQuote)
    requires forall p :: p in selected ==> 1 <= p <= |parsed.pages|
    ensures GroundQuote(parsed, selected, q).Ok? <==> Locatable(parsed, selected, q)
    ensures GroundQuote(parsed, selected, q).Ok? ==> Locates(parsed, selected, q, GroundQuote(parsed, selected, q).value)
    ensures GroundQuote(parsed, selected, q).Err? ==> GroundQuote(parsed, selected, q).error == QuoteFault(parsed, selected, q)
  {
    if q.page in selected {
      var text := parsed.pages[q.page - 1];
      var start := Find(text, q.quote, 0);
      if GroundQuote(parsed, selected, q).Ok? {
        forall j | OccursAt(text, q.quote, j)
          ensures j == start
        {
        }
        assert OnlyOccurrence(text, q.quote, start);
      }
    }
  }

  ghost predicate AllLocate(parsed: ParsedDocument, pages: set<int>, quotes: seq<ModelQuote>, evidence: seq<Evidence>) {
    |evidence| == |quotes| && forall i :: 0 <= i < |quotes| ==> Locates(parsed, pages, quotes[i], evidence[i])
  }

  lemma {:induction false} QuotesLocatable(parsed: ParsedDocument, selected: set<int>, quotes: seq<ModelQuote>)
    requires forall p :: p in selected ==> 1 <= p <= |parsed.pages|
    ensures GroundQuotes(parsed, selected, quotes).Ok? <==>
            forall i :: 0 <= i < |quotes| ==> Locatable(parsed, selected, quotes[i])
  {
    if quotes != [] {
      var front, last := quotes[..|quotes| - 1], quotes[|quotes| - 1];
      QuotesLocatable(parsed, selected, front);
      QuoteGrounded(parsed, selected, last);
      hide GroundQuote, Locatable;
      assert forall i :: 0 <= i < |front| ==> front[i] == quotes[i];
    }
  }

  lemma {:induction false} QuotesGrounded(parsed: ParsedDocument, selected: set<int>, quotes: seq<ModelQuote>)
    requires forall p :: p in selected ==> 1 <= p <= |parsed.pages|
    requires GroundQuotes(parsed, selected, quotes).Ok?
    ensures AllLocate(parsed, selected, quotes, GroundQuotes(parsed, selected, quotes).value)
  {
    if quotes != [] {
      var front, last := quotes[..|quotes| - 1], quotes[|quotes| - 1];
      QuotesGrounded(parsed, selected, front);
      QuoteGrounded(parsed, selected, last);
      hide GroundQuote, Locates;
      assert forall i :: 0 <= i < |front| ==> front[i] == quotes[i];
    }
  }

  /** Observation `o` carries item's values unchanged and exactly its quotes as evidence. */
  ghost predicate Renders(parsed: ParsedDocument, pages: set<int>, item: ModelObservation, o: Observation) {
    && o.field == item.field && o.raw == item.raw && o.value == item.value && o.unit == item.unit && o.missing == item.missing
    && o.confidence.None? && o.notes == ["semantic_validation_pending", "selected_pages_only"]
    && AllLocate(parsed, pages, item.quotes, o.evidence)
  }

  ghost predicate ItemLocatable(parsed: ParsedDocument, pages: set<int>, item: ModelObservation) {
    forall j :: 0 <= j < |item.quotes| ==> Locatable(parsed, pages, item.quotes[j])
  }

  lemma ItemGrounded(parsed: ParsedDocument, selected: set<int>, item: ModelObservation)
    requires forall p :: p in selected ==> 1 <= p <= |parsed.pages|
    ensures var quotes := GroundQuotes(parsed, selected, item.quotes);
      && (quotes.Ok? <==> ItemLocatable(parsed, selected, item))
      && (quotes.Ok? ==> Renders(parsed, selected, item, Observed(item, quotes.value)))
  {
    QuotesLocatable(parsed, selected, item.quotes);
    if GroundQuotes(parsed, selected, item.quotes).Ok? {
      QuotesGrounded(parsed, selected, item.quotes);
    }
    hide GroundQuotes, Locatable, AllLocate;
  }

  lemma {:induction false} ItemsGrounded(parsed: ParsedDocument, selected: set<int>, items: seq<ModelObservation>)
    requires forall p :: p in selected ==> 1 <= p <= |parsed.pages|
    ensures GroundItems(parsed, selected, items).Ok? <==>
            forall i :: 0 <= i < |items| ==> ItemLocatable(parsed, selected, items[i])
    ensures GroundItems(parsed, selected, items).Ok? ==>
            var os := GroundItems(parsed, selected, items).value;
            |os| == |items| && forall i :: 0 <= i < |items| ==> Renders(parsed, selected, items[i], os[i])
  {
    if items != [] {
      var front, last := items[..|items| - 1], items[|items| - 1];
      hide GroundQuotes, ItemLocatable, Renders, Observed, Locatable;
      ItemsGrounded(parsed, selected, front);
      ItemGrounded(parsed, selected, last);
      assert forall i :: 0 <= i < |front| ==> front[i] == items[i];
    }
  }

  function LengthsOf(parsed: ParsedDocument, numbers: seq<int>): nat
    requires forall i :: 0 <= i < |numbers| ==> 1 <= numbers[i] <= |parsed.pages|
  {
    if numbers == [] then 0
    else LengthsOf(parsed, numbers[..|numbers| - 1]) + |parsed.pages[numbers[|numbers| - 1] - 1]|
  }

  /** Distinct pages of the document, at most eight and 24000 characters of them, and some text among them. */
  predicate Selectable(parsed: ParsedDocument, numbers: seq<int>) {
    && numbers != [] && |numbers| <= 8
    && (forall i, j :: 0 <= i < j < |numbers| ==> numbers[i] != numbers[j])
    && (forall i :: 0 <= i < |numbers| ==> 1 <= numbers[i] <= |parsed.pages|)
    && LengthsOf(parsed, numbers) <= 24000
    && (exists i :: 0 <= i < |numbers| && !Blank(parsed.pages[numbers[i] - 1]))
  }

  lemma {:induction false} TotalWithOne(texts: seq<string>, pages: set<int>, p: int, k: nat)
    requires k <= |texts| && p !in pages && 1 <= p <= |texts|
    ensures TotalFrom(texts, pages + {p}, k) == TotalFrom(texts, pages, k) + if k < p then |texts[p - 1]| else 0
    decreases |texts| - k
  {
    if k < |texts| { TotalWithOne(texts, pages, p, k + 1); }
  }

  lemma {:induction false} TotalOfNone(texts: seq<string>, k: nat)
    requires k <= |texts|
    ensures TotalFrom(texts, {}, k) == 0
    decreases |texts| - k
  {
    if k < |texts| { TotalOfNone(texts, k + 1); }
  }

  lemma {:induction false} TotalIsLengths(parsed: ParsedDocument, numbers: seq<int>)
    requires Distinct(numbers) && forall i :: 0 <= i < |numbers| ==> 1 <= numbers[i] <= |parsed.pages|
    ensures TotalFrom(parsed.pages, SetOf(numbers), 0) == LengthsOf(parsed, numbers)
  {
    if numbers == [] {
      assert SetOf(numbers) == {};
      TotalOfNone(parsed.pages, 0);
    } else {
      var front, last := numbers[..|numbers| - 1], numbers[|numbers| - 1];
      TotalIsLengths(parsed, front);
      assert numbers == front + [last];
      assert SetOf(numbers) == SetOf(front) + {last};
      TotalWithOne(parsed.pages, SetOf(front), last, 0);
    }
  }

  lemma SelectPagesIff(parsed: ParsedDocument, numbers: seq<int>)
    ensures SelectPages(parsed, numbers).Ok? <==> Selectable(parsed, numbers)
  {
    if Distinct(numbers) && forall i :: 0 <= i < |numbers| ==> 1 <= numbers[i] <= |parsed.pages| {
      TotalIsLengths(parsed, numbers);
      assert forall i :: 0 <= i < |numbers| ==> numbers[i] in SetOf(numbers);
      hide Blank, TotalFrom, LengthsOf;
    }
  }

  /** The request itself is acceptable: unique fields, a valid page selection, named parties. */
  predicate Requestable(job: Job) {
    && job.fields != [] && Distinct(job.fields)
    && Selectable(job.parsed, job.pages)
    && job.project != "" && job.extractorName != "" && job.extractorVersion != ""
  }

  /**
   A reply is accepted exactly when it covers the requested fields and every quote of it has one
   place only on its selected page; the result then renders the reply item by item with those places.
   */
  lemma GroundingSoundAndComplete(reply: Reply, job: Job)
    ensures Grounding(reply, job).Ok? <==>
      && Requestable(job)
      && reply.Some? && FieldsOf(reply.value) == SetOf(job.fields)
      && forall i :: 0 <= i < |reply.value| ==> ItemLocatable(job.parsed, SetOf(job.pages), reply.value[i])
    ensures Grounding(reply, job).Ok? ==>
      var x := Grounding(reply, job).value;
      && x.version == job.parsed.version && x.parsed == job.parsed.id && x.run == Some(job.run)
      && x.project == job.project && x.registry == job.registry && x.createdAt == job.now
      && x.extractorName == job.extractorName && x.extractorVersion == job.extractorVersion && x.schema.Schema110?
      && |x.observations| == |reply.value|
      && forall i :: 0 <= i < |reply.value| ==> Renders(job.parsed, SetOf(job.pages), reply.value[i], x.observations[i])
  {
    SelectPagesIff(job.parsed, job.pages);
    if SelectPages(job.parsed, job.pages).Ok? && reply.Some? {
      ItemsGrounded(job.parsed, SetOf(job.pages), reply.value);
    }
  }

  // ----- Why a reply is refused

  /** Quote `j` of item `i` is the first one, in reading order, without a place of its own. */
  ghost predicate FirstUnplaced(parsed: ParsedDocument, pages: set<int>, items: seq<ModelObservation>, i: nat, j: nat) {
    && i < |items| && j < |items[i].quotes| && !Locatable(parsed, pages, items[i].quotes[j])
    && (forall k :: 0 <= k < j ==> Locatable(parsed, pages, items[i].quotes[k]))
    && (forall k :: 0 <= k < i ==> ItemLocatable(parsed, pages, items[k]))
  }

  lemma {:induction false} QuotesFailAtFirst(parsed: ParsedDocument, selected: set<int>, quotes: seq<ModelQuote>) returns (j: nat)
    requires forall p :: p in selected ==> 1 <= p <= |parsed.pages|
    requires GroundQuotes(parsed, selected, quotes).Err?
    ensures j < |quotes| && !Locatable(parsed, selected, quotes[j])
    ensures forall k :: 0 <= k < j ==> Locatable(parsed, selected, quotes[k])
    ensures GroundQuotes(parsed, selected, quotes).error == QuoteFault(parsed, selected, quotes[j])
  {
    var front := quotes[..|quotes| - 1];
    assert forall k :: 0 <= k < |front| ==> front[k] == quotes[k];
    QuotesLocatable(parsed, selected, front);
    QuoteGrounded(parsed, selected, quotes[|quotes| - 1]);
    hide GroundQuote, Locatable, QuoteFault, Locates;
    if GroundQuotes(parsed, selected, front).Err? {
      j := QuotesFailAtFirst(parsed, selected, front);
    } else {
      j := |quotes| - 1;
    }
  }

  lemma {:induction false} ItemsFailAtFirst(parsed: ParsedDocument, selected: set<int>, items: seq<ModelObservation>)
    returns (i: nat, j: nat)
    requires forall p :: p in selected ==> 1 <= p <= |parsed.pages|
    requires GroundItems(parsed, selected, items).Err?
    ensures FirstUnplaced(parsed, selected, items, i, j)
    ensures GroundItems(parsed, selected, items).error == QuoteFault(parsed, selected, items[i].quotes[j])
  {
    var front, last := items[..|items| - 1], items[|items| - 1];
    assert forall k :: 0 <= k < |front| ==> front[k] == items[k];
    if GroundItems(parsed, selected, front).Err? {
      i, j := ItemsFailAtFirst(parsed, selected, front);
    } else {
      ItemsGrounded(parsed, selected, front);
      i := |front|;
      j := QuotesFailAtFirst(parsed, selected, last.quotes);
    }
  }

  /** Page selections are refused for the first of these reasons that applies. */
  lemma PagesRefusedBecause(parsed: ParsedDocument, numbers: seq<int>)
    ensures var r := SelectPages(parsed, numbers);
      var proper := numbers != [] && Distinct(numbers);
      var inside := forall i :: 0 <= i < |numbers| ==> 1 <= numbers[i] <= |parsed.pages|;
      && (r == Err(BadPageSelection) <==> !proper)
      && (r == Err(PageOutsideDocument) <==> proper && !inside)
      && (r == Err(PageBudget) <==> proper && inside && |numbers| > 8)
      && (r == Err(CharacterBudget) <==> proper && inside && |numbers| <= 8 && LengthsOf(parsed, numbers) > 24000)
      && (r == Err(NoText) <==>
            && proper && inside && |numbers| <= 8 && LengthsOf(parsed, numbers) <= 24000
            && forall i :: 0 <= i < |numbers| ==> Blank(parsed.pages[numbers[i] - 1]))
  {
    if Distinct(numbers) && forall i :: 0 <= i < |numbers| ==> 1 <= numbers[i] <= |parsed.pages| {
      TotalIsLengths(parsed, numbers);
      assert forall i :: 0 <= i < |numbers| ==> numbers[i] in SetOf(numbers);
    }
    hide Blank, TotalFrom, LengthsOf, Distinct;
  }

  /** A reply to an acceptable request is refused as malformed, for its coverage, or at its first quote without a place. */
  lemma ReplyRefusedBecause(reply: Reply, job: Job) returns (i: nat, j: nat)
    requires Requestable(job) && Grounding(reply, job).Err?
    ensures var e := Grounding(reply, job).error;
      && (e.MalformedReply? <==> reply.None?)
      && (reply.Some? ==> (e.CoverageMismatch? <==> FieldsOf(reply.value) != SetOf(job.fields)))
      && (reply.Some? && FieldsOf(reply.value) == SetOf(job.fields) ==>
            FirstUnplaced(job.parsed, SetOf(job.pages), reply.value, i, j) && e == QuoteFault(job.parsed, SetOf(job.pages), reply.value[i].quotes[j]))
  {
    SelectPagesIff(job.parsed, job.pages);
    i, j := 0, 0;
    if reply.Some? && FieldsOf(reply.value) == SetOf(job.fields) {
      i, j := ItemsFailAtFirst(job.parsed, SetOf(job.pages), reply.value);
    }
    hide FirstUnplaced, Selectable, SelectPages;
  }

  // ----- The later re-checks

  datatype GroundingIssue =
    | DocumentVersionMismatch | MissingPage(page: int) | MissingOffsets(page: int) | QuoteMismatch(page: int)

  datatype GroundingReport = GroundingReport(valid: bool, checked: nat, issues: seq<GroundingIssue>)

  function EvidenceFault(parsed: ParsedDocument, e: Evidence): seq<GroundingIssue> {
    if !(1 <= e.page <= |parsed.pages|) then [MissingPage(e.page)]
    else if e.start.None? || e.end.None? then [MissingOffsets(e.page)]
    else if Slice(parsed.pages[e.page - 1], e.start.value, e.end.value) != e.quote then [QuoteMismatch(e.page)]
    else []
  }

  function AllFaults(parsed: ParsedDocument, evidence: seq<Evidence>): seq<GroundingIssue> {
    if evidence == [] then []
    else AllFaults(parsed, evidence[..|evidence| - 1]) + EvidenceFault(parsed, evidence[|evidence| - 1])
  }

  function AllEvidence(observations: seq<Observation>): seq<Evidence> {
    if observations == [] then []
    else AllEvidence(observations[..|observations| - 1]) + observations[|observations| - 1].evidence
  }

  lemma {:induction false} AllFaultsConcat(parsed: ParsedDocument, a: seq<Evidence>, b: seq<Evidence>)
    ensures AllFaults(parsed, a + b) == AllFaults(parsed, a) + AllFaults(parsed, b)
  {
    if b == [] {
      assert a + b == a;
    } else {
      assert (a + b)[..|a + b| - 1] == a + b[..|b| - 1];
      AllFaultsConcat(parsed, a, b[..|b| - 1]);
    }
  }

  /** The reference is at fault in this way. */
  predicate AtFault(parsed: ParsedDocument, e: Evidence, issue: GroundingIssue) {
    var paged, placed := 1 <= e.page <= |parsed.pages|, e.start.Some? && e.end.Some?;
    match issue
    case DocumentVersionMismatch => false
    case MissingPage(page) => page == e.page && !paged
    case MissingOffsets(page) => page == e.page && paged && !placed
    case QuoteMismatch(page) =>
      page == e.page && paged && placed && Slice(parsed.pages[page - 1], e.start.value, e.end.value) != e.quote
  }

  /** The issues of a re-check are the faults of the references. */
  lemma {:induction false} FaultsMean(parsed: ParsedDocument, evidence: seq<Evidence>, issue: GroundingIssue)
    ensures issue in AllFaults(parsed, evidence) <==> exists j :: 0 <= j < |evidence| && AtFault(parsed, evidence[j], issue)
  {
    if evidence != [] {
      var front, last := evidence[..|evidence| - 1], evidence[|evidence| - 1];
      FaultsMean(parsed, front, issue);
      FaultMeans(parsed, last, issue);
      hide EvidenceFault, AtFault;
      assert forall j :: 0 <= j < |front| ==> front[j] == evidence[j];
    }
  }

  lemma FaultMeans(parsed: ParsedDocument, e: Evidence, issue: GroundingIssue)
    ensures issue in EvidenceFault(parsed, e) <==> AtFault(parsed, e, issue)
  {
    hide Slice;
  }

  /** The inner loop: one observation's evidence, each item counted before it is looked at. */
  lemma FaultsStep(parsed: ParsedDocument, evidence: seq<Evidence>, j: nat)
    requires j < |evidence|
    ensures AllFaults(parsed, evidence[..j + 1]) == AllFaults(parsed, evidence[..j]) + EvidenceFault(parsed, evidence[j])
  {
    assert evidence[..j + 1][..j] == evidence[..j];
  }

  method CheckSpans(parsed: ParsedDocument, evidence: seq<Evidence>) returns (issues: seq<GroundingIssue>, checked: nat)
    ensures issues == AllFaults(parsed, evidence)
    ensures checked == |evidence|
  {
    issues, checked := [], 0;
    for j := 0 to |evidence|
      invariant checked == j
      invariant issues == AllFaults(parsed, evidence[..j])
    {
      hide Slice, AllFaults;
      FaultsStep(parsed, evidence, j);
      checked := checked + 1;
      var e := evidence[j];
      if !(1 <= e.page <= |parsed.pages|) {
        issues := issues + [MissingPage(e.page)];
      } else if e.start.None? || e.end.None? {
        issues := issues + [MissingOffsets(e.page)];
      } else if Slice(parsed.pages[e.page - 1], e.start.value, e.end.value) != e.quote {
        issues := issues + [QuoteMismatch(e.page)];
      }
    }
    assert evidence[..|evidence|] == evidence;
  }

  /** The outer loop. */
  method CheckAllSpans(parsed: ParsedDocument, os: seq<Observation>) returns (issues: seq<GroundingIssue>, checked: nat)
    ensures issues == AllFaults(parsed, AllEvidence(os))
    ensures checked == |AllEvidence(os)|
  {
    issues, checked := [], 0;
    for i := 0 to |os|
      invariant checked == |AllEvidence(os[..i])|
      invariant issues == AllFaults(parsed, AllEvidence(os[..i]))
    {
      assert AllEvidence(os[..i + 1]) == AllEvidence(os[..i]) + os[i].evidence by {
        assert os[..i + 1][..i] == os[..i];
      }
      var found, count := CheckSpans(parsed, os[i].evidence);
      AllFaultsConcat(parsed, AllEvidence(os[..i]), os[i].evidence);
      issues, checked := issues + found, checked + count;
    }
    assert os[..|os|] == os;
  }

  /** `validate_grounding`: every evidence item is counted and its offsets are checked again. */
  method ValidateGrounding(extraction: Extraction, parsed: ParsedDocument) returns (r: GroundingReport)
    ensures r.checked == |AllEvidence(extraction.observations)|
    ensures r.valid <==> r.issues == []
    ensures r.issues ==
      (if extraction.version != parsed.version then [DocumentVersionMismatch] else [])
      + AllFaults(parsed, AllEvidence(extraction.observations))
  {
    var issues: seq<GroundingIssue> := [];
    if extraction.version != parsed.version {
      issues := issues + [DocumentVersionMismatch];
    }
    var found, checked := CheckAllSpans(parsed, extraction.observations);
    issues := issues + found;
    r := GroundingReport(issues == [], checked, issues);
  }

  /** The span check shared by the cache reader and the extraction comparison. */
  predicate SpanHolds(parsed: ParsedDocument, selected: set<int>, e: Evidence) {
    && e.page in selected && 1 <= e.page <= |parsed.pages|
    && e.start.Some? && e.end.Some?
    && e.end.value <= |parsed.pages[e.page - 1]|
    && Slice(parsed.pages[e.page - 1], e.start.value, e.end.value) == e.quote
  }

  predicate SpansHold(parsed: ParsedDocument, selected: set<int>, observations: seq<Observation>) {
    forall i, j :: 0 <= i < |observations| && 0 <= j < |observations[i].evidence| ==>
      SpanHolds(parsed, selected, observations[i].evidence[j])
  }

  /** The evidence loop of `compare_extraction`: true when it runs to the end without raising. */
  method CompareEvidence(parsed: ParsedDocument, selected: set<int>, observations: seq<Observation>) returns (ok: bool)
    ensures ok == SpansHold(parsed, selected, observations)
  {
    for i := 0 to |observations|
      invariant SpansHold(parsed, selected, observations[..i])
    {
      var evidence := observations[i].evidence;
      for j := 0 to |evidence|
        invariant forall k :: 0 <= k < j ==> SpanHolds(parsed, selected, evidence[k])
      {
        if !SpanHolds(parsed, selected, evidence[j]) {
          return false;
        }
      }
    }
    return true;
  }

  lemma LocatedPassesEveryCheck(parsed: ParsedDocument, selected: set<int>, q: ModelQuote, e: Evidence)
    requires q.Valid() && Locates(parsed, selected, q, e)
    ensures e.Valid()
    ensures SpanHolds(parsed, selected, e)
    ensures EvidenceFault(parsed, e) == []
    ensures Validation.EvidenceIssues(parsed, e) == [] <==> !Blank(q.quote)
  {
    var text := parsed.pages[q.page - 1];
    SliceIsOccurrence(text, q.quote, e.start.value);
    assert OccursAt(text, q.quote, e.start.value);
  }

  lemma {:induction false} NoFaults(parsed: ParsedDocument, evidence: seq<Evidence>)
    requires forall i :: 0 <= i < |evidence| ==> EvidenceFault(parsed, evidence[i]) == []
    ensures AllFaults(parsed, evidence) == []
  {
    if evidence != [] {
      NoFaults(parsed, evidence[..|evidence| - 1]);
    }
  }

  lemma {:induction false} NoFaultsAnywhere(parsed: ParsedDocument, observations: seq<Observation>)
    requires forall i, j :: 0 <= i < |observations| && 0 <= j < |observations[i].evidence| ==>
      EvidenceFault(parsed, observations[i].evidence[j]) == []
    ensures AllFaults(parsed, AllEvidence(observations)) == []
  {
    if observations != [] {
      var last := |observations| - 1;
      NoFaultsAnywhere(parsed, observations[..last]);
      NoFaults(parsed, observations[last].evidence);
      AllFaultsConcat(parsed, AllEvidence(observations[..last]), observations[last].evidence);
    }
  }

  /** Characters that are not all whitespace: the one thing `ground_response` does not ask of a quote. */
  predicate VisibleQuotes(items: seq<ModelObservation>) {
    forall i, j :: 0 <= i < |items| && 0 <= j < |items[i].quotes| ==> !Blank(items[i].quotes[j].quote)
  }

  predicate EvidenceClean(parsed: ParsedDocument, observations: seq<Observation>) {
    forall i, j :: 0 <= i < |observations| && 0 <= j < |observations[i].evidence| ==>
      Validation.EvidenceIssues(parsed, observations[i].evidence[j]) == []
  }

  /**
   An accepted reply passes every later check on the same inputs. The validator's own evidence checks
   are the single exception: they pass exactly when no quote is whitespace only.
   */
  lemma GroundedPassesEveryCheck(reply: Reply, job: Job)
    requires ValidReply(reply) && Grounding(reply, job).Ok?
    ensures
      var x := Grounding(reply, job).value;
      && x.Valid()
      && AllFaults(job.parsed, AllEvidence(x.observations)) == []
      && SpansHold(job.parsed, SetOf(job.pages), x.observations)
      && FieldsFound(x.observations) == SetOf(job.fields)
      && (EvidenceClean(job.parsed, x.observations) <==> VisibleQuotes(reply.value))
  {
    GroundingSoundAndComplete(reply, job);
    var x := Grounding(reply, job).value;
    var items, os, pages := reply.value, x.observations, SetOf(job.pages);
    forall i, j | 0 <= i < |os| && 0 <= j < |os[i].evidence|
      ensures os[i].evidence[j].Valid() && os[i].evidence[j].version == x.version
      ensures SpanHolds(job.parsed, pages, os[i].evidence[j])
      ensures EvidenceFault(job.parsed, os[i].evidence[j]) == []
      ensures Validation.EvidenceIssues(job.parsed, os[i].evidence[j]) == [] <==> !Blank(items[i].quotes[j].quote)
    {
      assert Renders(job.parsed, pages, items[i], os[i]);
      LocatedPassesEveryCheck(job.parsed, pages, items[i].quotes[j], os[i].evidence[j]);
    }
    forall i | 0 <= i < |os|
      ensures os[i].Valid() && CitesOnly(os[i], x.version) && os[i].field == items[i].field
      ensures |os[i].evidence| == |items[i].quotes|
    {
      assert Renders(job.parsed, pages, items[i], os[i]) && items[i].Valid();
    }
    NoFaultsAnywhere(job.parsed, os);
    FieldsAgree(items, os);
  }

  function FieldsFound(observations: seq<Observation>): set<Field> {
    set i | 0 <= i < |observations| :: observations[i].field
  }

  lemma FieldsAgree(items: seq<ModelObservation>, os: seq<Observation>)
    requires |items| == |os| && forall i :: 0 <= i < |os| ==> os[i].field == items[i].field
    ensures FieldsFound(os) == FieldsOf(items)
  {
    forall f | f in FieldsOf(items)
      ensures f in FieldsFound(os)
    {
      var i :| 0 <= i < |items| && items[i].field == f;
      assert os[i].field == f;
    }
  }

  lemma OneSpace()
    ensures OnlyOccurrence("a b", " ", 1) && Blank(" ") && !Blank("a b")
  {
    var text := "a b";
    assert !IsSpace(text[0]);
    assert text[1..2] == " ";
    forall j | OccursAt(text, " ", j)
      ensures j == 1
    {
      assert text[j..j + 1][0] == text[j];
    }
  }

  /** A reply that grounds and yet fails validation, whatever the field: its quote is a single space. */
  lemma WhitespaceQuoteGroundsButIsRejected(job: Job, item: ModelObservation)
    requires job.parsed.pages == ["a b"] && job.pages == [1] && job.fields == [item.field]
    requires job.project != "" && job.extractorName != "" && job.extractorVersion != ""
    requires item.Valid() && item.quotes == [ModelQuote(1, " ")]
    ensures Grounding(Some([item]), job).Ok?
    ensures !EvidenceClean(job.parsed, Grounding(Some([item]), job).value.observations)
  {
    var items := [item];
    OneSpace();
    assert SetOf(job.pages) == {1} && SetOf(job.fields) == {item.field};
    assert FieldsOf(items) == {item.field} by { assert items[0].field == item.field; }
    assert TotalFrom(job.parsed.pages, {1}, 1) == 0;
    assert SelectPages(job.parsed, job.pages) == Ok({1});
    SelectPagesIff(job.parsed, job.pages);
    assert Locatable(job.parsed, {1}, item.quotes[0]);
    assert ItemLocatable(job.parsed, {1}, item);
    GroundingSoundAndComplete(Some(items), job);
    GroundedPassesEveryCheck(Some(items), job);
    assert Blank(items[0].quotes[0].quote);
  }

  /**
   The re-checks are not the same predicate. `validate_grounding` never looks at the end offset on its
   own, so a span that runs past the page is accepted when the clamped text still matches; on spans
   inside a selected page it and the shared span check agree.
   */
  lemma RecheckersAgreeInsidePage(parsed: ParsedDocument, selected: set<int>, e: Evidence)
    ensures SpanHolds(parsed, selected, e) <==>
      e.page in selected && EvidenceFault(parsed, e) == [] && e.end.value <= |parsed.pages[e.page - 1]|
  {
  }

  lemma OverlongSpanSplitsRecheckers()
    ensures
      var document := ParsedDocument(Raw(0), Raw(1), "p", "1", ["abc"], 0);
      var e := Evidence(Raw(1), 1, "c", Some(2), Some(9));
      e.Valid() && EvidenceFault(document, e) == [] && !SpanHolds(document, {1}, e)
  {
  }
}
