/**
 The paid extraction call as a protocol. Any number of processes share a directory of published
 entries and a directory of locks; each takes the atomic file-system steps of `extract_one_call` one
 at a time, in any interleaving, and may crash between any two of them.
 */
module SingleFlight {
  import opened Wrappers
  import opened Text
  import opened Domain
  import Fields
  import Grounding
  import Sorting

  // ----- Admission: what is checked before any file is touched

  /** The inputs that the cache key hashes, and so the key itself. */
  datatype Key = Key(parsed: ParsedDocument, project: string, registry: Registry, configuration: Configuration)

  datatype Call = Call(
    job: Grounding.Job, model: string, maxOutputTokens: int, promptBytes: nat, inputBytes: nat,
    rates: Option<CostRates>, ceiling: Option<real>)

  datatype Refusal =
    | BadPages(reason: Grounding.GroundError) | BadFields | BadBudget | ByteBudget
    | BadCeiling | CeilingWithoutPrices | CeilingExceeded

  function EstimatedCost(inputTokens: nat, outputTokens: nat, rates: CostRates): real {
    (inputTokens as real * rates.input + outputTokens as real * rates.output) / 1000000.0
  }

  function Admit(call: Call): Result<Key, Refusal> {
    var job := call.job;
    var selection := Grounding.SelectPages(job.parsed, job.pages);
    if selection.Err? then Err(BadPages(selection.error))
    else if job.fields == [] || !Sorting.Distinct(job.fields) then Err(BadFields)
    else if !(1 <= call.maxOutputTokens <= 4096) || Blank(job.project) then Err(BadBudget)
    else if call.inputBytes + call.promptBytes > 60000 then Err(ByteBudget)
    else if call.ceiling.Some? && call.ceiling.value < 0.0 then Err(BadCeiling)
    else if call.ceiling.Some? && call.rates.None? then Err(CeilingWithoutPrices)
    else if call.ceiling.Some?
      && EstimatedCost(call.promptBytes + call.inputBytes, call.maxOutputTokens, call.rates.value) > call.ceiling.value
    then Err(CeilingExceeded)
    else
      Ok(Key(job.parsed, job.project, job.registry,
             Configuration(job.extractorName, call.model, job.fields, selection.value, call.maxOutputTokens, call.rates)))
  }

  /** An admitted call of a named extractor is one the protocol's theorems are about. */
  lemma AdmittedCallMayStart(call: Call, startedAt: Time)
    requires Admit(call).Ok? && call.job.extractorName != "" && call.job.extractorVersion != ""
    ensures Process(Admit(call).value, call.job, startedAt, Start, true).Admitted()
  {
    Grounding.SelectPagesIff(call.job.parsed, call.job.pages);
    assert Blank("");
  }

  /** A reply that stays within the token bounds of an admitted call never costs more than the ceiling. */
  lemma AdmittedReplyStaysUnderCeiling(call: Call, inputTokens: nat, outputTokens: nat)
    requires Admit(call).Ok? && call.ceiling.Some?
    requires call.rates.Some? ==> call.rates.value.Valid()
    requires inputTokens <= call.promptBytes + call.inputBytes && outputTokens <= call.maxOutputTokens
    ensures call.rates.Some? && EstimatedCost(inputTokens, outputTokens, call.rates.value) <= call.ceiling.value
  {
    CostMonotone(call.rates.value, inputTokens, call.promptBytes + call.inputBytes, outputTokens, call.maxOutputTokens);
    hide EstimatedCost;
  }

  /** A price is per million tokens, input and output apart, and costs add up. */
  lemma CostIsPerMillion(rates: CostRates, a: nat, b: nat, c: nat, d: nat)
    ensures EstimatedCost(1000000, 0, rates) == rates.input && EstimatedCost(0, 1000000, rates) == rates.output
    ensures EstimatedCost(a + c, b + d, rates) == EstimatedCost(a, b, rates) + EstimatedCost(c, d, rates)
  {
    assert (a + c) as real * rates.input == a as real * rates.input + c as real * rates.input;
    assert (b + d) as real * rates.output == b as real * rates.output + d as real * rates.output;
  }

  lemma SameSetIff(a: seq<int>, b: seq<int>)
    ensures Grounding.SetOf(a) == Grounding.SetOf(b) <==> forall p :: p in a <==> p in b
  {
    if Grounding.SetOf(a) == Grounding.SetOf(b) {
      forall p
        ensures p in a <==> p in b
      {
        assert p in a <==> p in Grounding.SetOf(a);
        assert p in b <==> p in Grounding.SetOf(b);
      }
    }
    if forall p :: p in a <==> p in b {
      assert forall p :: p in Grounding.SetOf(a) <==> p in Grounding.SetOf(b);
    }
  }

  /** Two admitted calls share a cache entry exactly if everything that can change the answer is the same. */
  lemma SameKeyIff(a: Call, b: Call)
    requires Admit(a).Ok? && Admit(b).Ok?
    ensures Admit(a).value == Admit(b).value <==>
      && a.job.parsed == b.job.parsed && a.job.project == b.job.project && a.job.registry == b.job.registry
      && a.job.extractorName == b.job.extractorName && a.model == b.model && a.job.fields == b.job.fields
      && (forall p :: p in a.job.pages <==> p in b.job.pages)
      && a.maxOutputTokens == b.maxOutputTokens && a.rates == b.rates
  {
    SameSetIff(a.job.pages, b.job.pages);
    hide EstimatedCost, Grounding.SetOf, Sorting.Distinct, Blank;
  }

  /** Which calls are admitted. */
  lemma AdmittedIff(call: Call)
    ensures Admit(call).Ok? <==>
      && Grounding.Selectable(call.job.parsed, call.job.pages)
      && call.job.fields != [] && (forall i, j :: 0 <= i < j < |call.job.fields| ==> call.job.fields[i] != call.job.fields[j])
      && 1 <= call.maxOutputTokens <= 4096 && !Blank(call.job.project) && call.inputBytes + call.promptBytes <= 60000
      && (call.ceiling.Some? ==>
            && 0.0 <= call.ceiling.value && call.rates.Some?
            && EstimatedCost(call.promptBytes + call.inputBytes, call.maxOutputTokens, call.rates.value) <= call.ceiling.value)
  {
    Grounding.SelectPagesIff(call.job.parsed, call.job.pages);
    hide EstimatedCost, Grounding.Selectable, Blank;
  }

  /** And why the others are not: the first of these reasons that applies. */
  lemma RefusedBecause(call: Call)
    requires Grounding.Selectable(call.job.parsed, call.job.pages)
    ensures var r := Admit(call);
      var fields := call.job.fields != [] && Sorting.Distinct(call.job.fields);
      var budget := 1 <= call.maxOutputTokens <= 4096 && !Blank(call.job.project);
      var bytes := call.inputBytes + call.promptBytes <= 60000;
      && (r == Err(BadFields) <==> !fields)
      && (r == Err(BadBudget) <==> fields && !budget)
      && (r == Err(ByteBudget) <==> fields && budget && !bytes)
      && (r == Err(BadCeiling) <==> fields && budget && bytes && call.ceiling.Some? && call.ceiling.value < 0.0)
      && (r == Err(CeilingWithoutPrices) <==>
            fields && budget && bytes && call.ceiling.Some? && call.ceiling.value >= 0.0 && call.rates.None?)
  {
    Grounding.SelectPagesIff(call.job.parsed, call.job.pages);
    hide EstimatedCost, Grounding.Selectable, Blank, Sorting.Distinct;
  }

  lemma CostMonotone(rates: CostRates, fewer: nat, more: nat, shorter: nat, longer: nat)
    requires rates.Valid() && fewer <= more && shorter <= longer
    ensures EstimatedCost(fewer, shorter, rates) <= EstimatedCost(more, longer, rates)
  {
    Monotone(fewer as real, more as real, rates.input);
    Monotone(shorter as real, longer as real, rates.output);
  }

  lemma Monotone(a: real, b: real, r: real)
    requires a <= b && 0.0 <= r
    ensures a * r <= b * r
  {
  }

  // ----- Published entries

  /** A file at a cache path: an entry, or something that is not the JSON of one. */
  datatype Entry = Unreadable | Entry(run: PipelineRun, extraction: Extraction, configuration: Configuration)

  /** `_read_cached` */
  predicate ReadCached(entry: Entry, key: Key) {
    && entry.Entry?
    && var run, x, c := entry.run, entry.extraction, key.configuration;
    && run.Valid() && x.Valid()
    && Grounding.SpansHold(key.parsed, c.pages, x.observations)
    && run.status.Succeeded? && run.stage.LlmExtracted?
    && run.inputHash == OfDocument(key.parsed) && run.configHash == OfConfiguration(c)
    && entry.configuration == c
    && x.run == Some(run.id)
    && x.parsed == key.parsed.id && x.version == key.parsed.version
    && x.project == key.project && x.registry == key.registry
    && Grounding.FieldsFound(x.observations) == Grounding.SetOf(c.fields)
  }

  /** What a reader accepts: a succeeded extraction of this document under this configuration, whose spans still hold. */
  lemma ReadsBackIff(entry: Entry, key: Key)
    ensures ReadCached(entry, key) <==>
      && entry.Entry? && entry.run.Valid() && entry.extraction.Valid()
      && entry.run.status == Succeeded && entry.run.stage == LlmExtracted
      && entry.run.inputHash == OfDocument(key.parsed) && entry.run.configHash == OfConfiguration(key.configuration)
      && entry.configuration == key.configuration && entry.extraction.run == Some(entry.run.id)
      && entry.extraction.parsed == key.parsed.id && entry.extraction.version == key.parsed.version
      && entry.extraction.project == key.project && entry.extraction.registry == key.registry
      && (forall f :: f in key.configuration.fields <==>
            exists i :: 0 <= i < |entry.extraction.observations| && entry.extraction.observations[i].field == f)
      && (forall i, j :: 0 <= i < |entry.extraction.observations| && 0 <= j < |entry.extraction.observations[i].evidence| ==>
            SpanKept(key, entry.extraction.observations[i].evidence[j]))
  {
    if entry.Entry? {
      SameFieldsIff(entry.extraction.observations, key.configuration.fields);
      hide Grounding.FieldsFound, Grounding.SetOf, Slice;
    }
  }

  /** The quote stands at its offsets on a selected page, and they lie inside it. */
  predicate SpanKept(key: Key, e: Evidence) {
    && e.page in key.configuration.pages && 1 <= e.page <= |key.parsed.pages| && e.start.Some? && e.end.Some?
    && e.end.value <= |key.parsed.pages[e.page - 1]|
    && Slice(key.parsed.pages[e.page - 1], e.start.value, e.end.value) == e.quote
  }

  lemma SameFieldsIff(os: seq<Observation>, fields: seq<Fields.Field>)
    ensures Grounding.FieldsFound(os) == Grounding.SetOf(fields) <==>
      forall f :: f in fields <==> exists i :: 0 <= i < |os| && os[i].field == f
  {
    assert forall f :: f in Grounding.FieldsFound(os) <==> exists i :: 0 <= i < |os| && os[i].field == f;
    assert forall f :: f in Grounding.SetOf(fields) <==> f in fields;
  }

  // ----- Processes

  datatype Outcome = Reused | Published | Busy | Conflict | Failure

  datatype Pc =
    | Start                                              // before the first `cache_path.exists()`
    | Reading(locked: bool)                              // an entry was seen; about to read it
    | Missed                                             // no entry; about to `mkdir` the lock
    | SettingUp                                          // lock held; run directory not yet written
    | Rechecking                                         // lock held; about to look again
    | Ready                                              // still no entry; about to call the provider
    | Calling                                            // the provider call is in flight
    | Replied(reply: Grounding.Reply, stopped: bool)
    | Linking(entry: Entry)                              // about to `os.link` the finished entry
    | Releasing(outcome: Outcome)                        // in the `finally` block
    | Leaking                                            // set-up failed outside the `try`: the lock stays
    | Done(outcome: Outcome)

  datatype Process = Process(key: Key, job: Grounding.Job, startedAt: Time, pc: Pc, alive: bool) {
    predicate Admitted() {
      && Grounding.Requestable(job)
      && key.parsed == job.parsed && key.project == job.project && key.registry == job.registry
      && key.configuration.fields == job.fields && key.configuration.pages == Grounding.SetOf(job.pages)
    }

    /** The lock directory of `key` was made by this process and not yet removed by it. */
    predicate Holds() {
      || pc.SettingUp? || pc.Rechecking? || (pc.Reading? && pc.locked) || pc.Ready? || pc.Calling?
      || pc.Replied? || pc.Linking? || pc.Releasing? || pc.Leaking?
    }

    /** Between a successful re-check and the link. */
    predicate Committed() { pc.Ready? || pc.Calling? || pc.Replied? || pc.Linking? }
  }

  datatype LogEntry = CallStarted(key: Key, caller: nat) | EntryPublished(key: Key) | LinkRefused(key: Key)

  datatype State = State(cache: map<Key, Entry>, locks: set<Key>, procs: seq<Process>, log: seq<LogEntry>)

  /** What the environment decides in one step: a crash, an I/O failure, the provider's reply, the clock. */
  datatype Choice = Choice(crash: bool, fails: bool, late: bool, reply: Grounding.Reply, stopped: bool, now: Time)

  function FinishedRun(p: Process, now: Time): PipelineRun {
    PipelineRun(p.job.run, LlmExtracted, Succeeded, OfDocument(p.key.parsed), OfConfiguration(p.key.configuration),
                p.startedAt, Some(now), None, None)
  }

  function FinishedEntry(p: Process, reply: Grounding.Reply, now: Time): Option<Entry> {
    var result := Grounding.Grounding(reply, p.job);
    if result.Err? || !FinishedRun(p, now).Valid() then None
    else Some(Entry(FinishedRun(p, now), result.value, p.key.configuration))
  }

  /** The program counter after a step that touches neither directory. */
  function Local(p: Process, published: bool, entry: Option<Entry>, c: Choice): Pc
    requires !p.pc.Missed? && !p.pc.Linking? && !p.pc.Releasing?
  {
    match p.pc
    case Start => if published then Reading(false) else Missed
    case Reading(locked) =>
      var outcome := if entry.Some? && ReadCached(entry.value, p.key) then Reused else Conflict;
      if locked then Releasing(if c.fails then Failure else outcome) else Done(outcome)
    case SettingUp => if c.fails then Leaking else Rechecking
    case Rechecking => if c.fails then Releasing(Failure) else if published then Reading(true) else Ready
    case Ready => if c.fails then Releasing(Failure) else Calling
    case Calling => if c.fails || !Grounding.ValidReply(c.reply) then Releasing(Failure) else Replied(c.reply, c.stopped)
    case Replied(reply, stopped) =>
      var finished := FinishedEntry(p, reply, c.now);
      if c.fails || !stopped || finished.None? then Releasing(Failure) else Linking(finished.value)
    case Leaking | Done(_) => p.pc
  }

  function Moved(s: State, i: nat, pc: Pc): State
    requires i < |s.procs|
  {
    s.(procs := s.procs[i := s.procs[i].(pc := pc)])
  }

  /** One atomic step of process `i`. */
  function Step(s: State, i: nat, c: Choice): State
    requires i < |s.procs|
  {
    var p := s.procs[i];
    if !p.alive then s
    else if c.crash then s.(procs := s.procs[i := p.(alive := false)])
    else match p.pc
      case Missed =>
        if p.key in s.locks then Moved(s, i, Done(Busy))
        else Moved(s, i, SettingUp).(locks := s.locks + {p.key})
      case Linking(entry) =>
        if c.fails then Moved(s, i, Releasing(Failure))
        else if p.key in s.cache then Moved(s, i, Releasing(Failure)).(log := s.log + [LinkRefused(p.key)])
        else Moved(s, i, Releasing(if c.late then Failure else Published))
             .(cache := s.cache[p.key := entry], log := s.log + [EntryPublished(p.key)])
      case Releasing(outcome) => Moved(s, i, Done(outcome)).(locks := s.locks - {p.key})
      case _ =>
        var published := p.key in s.cache;
        var pc := Local(p, published, Seen(s, p.key), c);
        var moved := Moved(s, i, pc);
        if p.pc.Ready? && pc.Calling? then moved.(log := s.log + [CallStarted(p.key, i)]) else moved
  }

  type Schedule = seq<(nat, Choice)>

  /** Any interleaving: a schedule names the process that moves next and what befalls it. */
  function Run(s: State, schedule: Schedule): State
  {
    if schedule == [] then s
    else
      var last := |schedule| - 1;
      var before := Run(s, schedule[..last]);
      if schedule[last].0 < |before.procs| then Step(before, schedule[last].0, schedule[last].1) else before
  }

  /** Any files may be there, and any locks, leaked by earlier runs; nobody has moved. */
  predicate Initial(s: State) {
    && (forall i :: 0 <= i < |s.procs| ==> s.procs[i].Admitted() && s.procs[i].pc.Start?)
    && s.log == []
  }

  // ----- The invariant

  ghost predicate LocksHeld(s: State) {
    && (forall i :: 0 <= i < |s.procs| && s.procs[i].Holds() ==> s.procs[i].key in s.locks)
    && (forall i, j :: 0 <= i < j < |s.procs| && s.procs[i].Holds() && s.procs[j].Holds() ==>
          s.procs[i].key != s.procs[j].key)
  }

  ghost predicate ProcessSound(s: State, p: Process) {
    && p.Admitted()
    && (p.Committed() ==> p.key !in s.cache)
    && (p.pc.Reading? ==> p.key in s.cache)
    && (p.pc.Replied? ==> Grounding.ValidReply(p.pc.reply))
    && (p.pc.Linking? ==> ReadCached(p.pc.entry, p.key))
    && ((p.pc.Releasing? || p.pc.Done?) && (p.pc.outcome.Reused? || p.pc.outcome.Published?) ==> p.key in s.cache)
  }

  ghost predicate LogSound(s: State) {
    && (forall b :: 0 <= b < |s.log| ==> !s.log[b].LinkRefused?)
    && (forall a :: 0 <= a < |s.log| && s.log[a].EntryPublished? ==> s.log[a].key in s.cache)
    && (forall a, b :: 0 <= a < b < |s.log| && s.log[a].EntryPublished? ==> s.log[b].key != s.log[a].key)
  }

  ghost predicate Inv(s: State) {
    && LocksHeld(s)
    && (forall i :: 0 <= i < |s.procs| ==> ProcessSound(s, s.procs[i]))
    && LogSound(s)
  }

  /** An entry built from a grounded reply is one that every later reader of the same key accepts. */
  lemma GroundedEntryReads(p: Process, reply: Grounding.Reply, now: Time)
    requires p.Admitted() && Grounding.ValidReply(reply) && FinishedEntry(p, reply, now).Some?
    ensures ReadCached(FinishedEntry(p, reply, now).value, p.key)
  {
    Grounding.GroundedPassesEveryCheck(reply, p.job);
    Grounding.GroundingSoundAndComplete(reply, p.job);
  }

  /** Everything one step of process `i` can do to the shared directories and to its own standing. */
  ghost predicate Effect(s: State, t: State, i: nat) {
    && i < |s.procs| == |t.procs|
    && (forall j :: 0 <= j < |s.procs| && j != i ==> t.procs[j] == s.procs[j])
    && var p, q := s.procs[i], t.procs[i];
    && q.key == p.key && q.job == p.job
    && (q.alive ==> p.alive)
    && (BeforeCall(q.pc) ==> BeforeCall(p.pc))
    && (Quiet(s, t, p, q, i) || Acquires(s, t, p, q) || Links(s, t, p, q) || Releases(s, t, p, q))
  }

  ghost predicate Quiet(s: State, t: State, p: Process, q: Process, i: nat) {
    && t.locks == s.locks && t.cache == s.cache
    && (q.Holds() <==> p.Holds())
    && (|| t.log == s.log
        || (p.alive && p.pc.Ready? && q.pc.Calling? && t.log == s.log + [CallStarted(p.key, i)])
        || (p.alive && p.pc.Linking? && p.key in s.cache && t.log == s.log + [LinkRefused(p.key)]))
  }

  ghost predicate Acquires(s: State, t: State, p: Process, q: Process) {
    && p.alive && p.pc.Missed? && p.key !in s.locks && q.Holds()
    && t.locks == s.locks + {p.key} && t.cache == s.cache && t.log == s.log
  }

  ghost predicate Links(s: State, t: State, p: Process, q: Process) {
    && p.alive && p.pc.Linking? && p.key !in s.cache && q.pc.Releasing?
    && t.locks == s.locks && t.cache == s.cache[p.key := p.pc.entry] && t.log == s.log + [EntryPublished(p.key)]
  }

  ghost predicate Releases(s: State, t: State, p: Process, q: Process) {
    && p.alive && p.pc.Releasing? && q.pc.Done?
    && t.locks == s.locks - {p.key} && t.cache == s.cache && t.log == s.log
  }

  lemma StepHasEffect(s: State, i: nat, c: Choice)
    requires i < |s.procs|
    ensures Effect(s, Step(s, i, c), i)
  {
    hide FinishedEntry, ReadCached;
    var p, t := s.procs[i], Step(s, i, c);
    if p.alive && !c.crash && p.pc.Linking? && !c.fails && p.key !in s.cache {
      assert Links(s, t, p, t.procs[i]);
    } else if p.alive && !c.crash && p.pc.Missed? && p.key !in s.locks {
      assert Acquires(s, t, p, t.procs[i]);
    } else if p.alive && !c.crash && p.pc.Releasing? {
      assert Releases(s, t, p, t.procs[i]);
    } else {
      assert Quiet(s, t, p, t.procs[i], i);
    }
  }

  lemma RepliedKeepsSound(s: State, p: Process, entry: Option<Entry>, c: Choice)
    requires ProcessSound(s, p) && p.pc.Replied?
    ensures ProcessSound(s, p.(pc := Local(p, p.key in s.cache, entry, c)))
  {
    if FinishedEntry(p, p.pc.reply, c.now).Some? {
      GroundedEntryReads(p, p.pc.reply, c.now);
    }
  }

  function Seen(s: State, key: Key): Option<Entry> {
    if key in s.cache then Some(s.cache[key]) else None
  }

  lemma LocalKeepsSound(s: State, p: Process, c: Choice)
    requires ProcessSound(s, p)
    requires !p.pc.Missed? && !p.pc.Linking? && !p.pc.Releasing?
    ensures ProcessSound(s, p.(pc := Local(p, p.key in s.cache, Seen(s, p.key), c)))
  {
    hide ReadCached, Grounding.ValidReply, FinishedEntry;
    if p.pc.Replied? {
      RepliedKeepsSound(s, p, Seen(s, p.key), c);
    }
  }

  lemma LocalStepKeepsSelfSound(s: State, i: nat, c: Choice)
    requires i < |s.procs| && ProcessSound(s, s.procs[i])
    requires s.procs[i].alive && !c.crash
    requires !s.procs[i].pc.Missed? && !s.procs[i].pc.Linking? && !s.procs[i].pc.Releasing?
    ensures |Step(s, i, c).procs| == |s.procs|
    ensures ProcessSound(Step(s, i, c), Step(s, i, c).procs[i])
  {
    var p := s.procs[i];
    LocalKeepsSound(s, p, c);
    var q := p.(pc := Local(p, p.key in s.cache, Seen(s, p.key), c));
    assert Step(s, i, c).procs[i] == q && Step(s, i, c).cache == s.cache;
  }

  lemma StepKeepsSelfSound(s: State, i: nat, c: Choice)
    requires i < |s.procs| && ProcessSound(s, s.procs[i])
    ensures |Step(s, i, c).procs| == |s.procs|
    ensures ProcessSound(Step(s, i, c), Step(s, i, c).procs[i])
  {
    hide ReadCached, Local, Grounding.ValidReply;
    var pc := s.procs[i].pc;
    if s.procs[i].alive && !c.crash && !pc.Missed? && !pc.Linking? && !pc.Releasing? {
      LocalStepKeepsSelfSound(s, i, c);
    }
  }

  lemma EffectKeepsLocks(s: State, t: State, i: nat)
    requires LocksHeld(s) && Effect(s, t, i)
    ensures LocksHeld(t)
  {
  }

  lemma EffectKeepsOthersSound(s: State, t: State, i: nat, j: nat)
    requires LocksHeld(s) && Effect(s, t, i) && j < |s.procs| && j != i
    requires ProcessSound(s, s.procs[j])
    ensures ProcessSound(t, t.procs[j])
  {
    if Links(s, t, s.procs[i], t.procs[i]) && s.procs[j].Committed() {
      assert s.procs[i].Holds() && s.procs[j].Holds();
    }
  }

  lemma EffectKeepsLog(s: State, t: State, i: nat)
    requires LogSound(s) && Effect(s, t, i) && ProcessSound(s, s.procs[i])
    ensures LogSound(t)
  {
    hide ReadCached, Process.Holds, Process.Admitted, Grounding.ValidReply;
  }

  lemma StepKeepsInv(s: State, i: nat, c: Choice)
    requires Inv(s) && i < |s.procs|
    ensures Inv(Step(s, i, c))
  {
    var t := Step(s, i, c);
    StepHasEffect(s, i, c);
    EffectKeepsLocks(s, t, i);
    EffectKeepsLog(s, t, i);
    StepKeepsSelfSound(s, i, c);
    forall j | 0 <= j < |t.procs|
      ensures ProcessSound(t, t.procs[j])
    {
      if j != i { EffectKeepsOthersSound(s, t, i, j); }
    }
  }

  lemma StepKeepsCount(s: State, i: nat, c: Choice)
    requires i < |s.procs|
    ensures |Step(s, i, c).procs| == |s.procs|
  {
    StepHasEffect(s, i, c);
    hide Step;
  }

  lemma {:induction false} RunKeepsInv(s: State, schedule: Schedule)
    requires Initial(s)
    ensures Inv(Run(s, schedule)) && |Run(s, schedule).procs| == |s.procs|
  {
    if schedule == [] {
    } else {
      hide Inv, Initial, Step, Effect, ProcessSound, LocksHeld, LogSound, ReadCached;
      var last := |schedule| - 1;
      RunKeepsInv(s, schedule[..last]);
      var before, i, c := Run(s, schedule[..last]), schedule[last].0, schedule[last].1;
      if i < |before.procs| {
        StepKeepsInv(before, i, c);
        StepKeepsCount(before, i, c);
      }
    }
  }

  // ----- What every run guarantees

  /** At most one provider call per key is in flight, counting the calls of crashed processes. */
  lemma OneCallInFlight(s: State, schedule: Schedule, i: nat, j: nat)
    requires Initial(s) && i < |s.procs| && j < |s.procs|
    ensures |Run(s, schedule).procs| == |s.procs|
    ensures
      var r := Run(s, schedule);
      r.procs[i].pc.Calling? && r.procs[j].pc.Calling? && r.procs[i].key == r.procs[j].key ==> i == j
  {
    RunKeepsInv(s, schedule);
    var r := Run(s, schedule);
    if r.procs[i].pc.Calling? && r.procs[j].pc.Calling? {
      assert r.procs[i].Holds() && r.procs[j].Holds();
    }
  }

  /**
   Over a whole run: the final link never finds a file, an entry is published at most once, and no call
   for its key starts afterwards.
   */
  lemma PublishedOnceAndFinal(s: State, schedule: Schedule)
    requires Initial(s)
    ensures
      var log := Run(s, schedule).log;
      && (forall b :: 0 <= b < |log| ==> !log[b].LinkRefused?)
      && (forall a, b :: 0 <= a < b < |log| && log[a].EntryPublished? ==>
            log[b] != EntryPublished(log[a].key) && !(log[b].CallStarted? && log[b].key == log[a].key))
  {
    RunKeepsInv(s, schedule);
  }

  lemma StepLeavesPublished(s: State, i: nat, c: Choice, k: Key)
    requires Inv(s) && i < |s.procs| && k in s.cache
    ensures var t := Step(s, i, c);
      && k in t.cache
      && (t.log == s.log || (|t.log| == |s.log| + 1 && t.log[..|s.log|] == s.log && t.log[|s.log|].key != k))
  {
    StepHasEffect(s, i, c);
    hide Step, ReadCached, Process.Admitted, Process.Holds, Grounding.ValidReply;
    assert ProcessSound(s, s.procs[i]);
  }

  /**
   From any moment at which an entry is there - found at the start or published since - nothing more is
   logged for its key: no call is started, nothing is published and no link is refused.
   */
  lemma {:induction false} NothingAfterEntry(s: State, past: Schedule, later: Schedule, k: Key)
    requires Initial(s) && k in Run(s, past).cache
    ensures var was, now := Run(s, past).log, Run(s, past + later).log;
      && k in Run(s, past + later).cache
      && was <= now && forall n :: |was| <= n < |now| ==> now[n].key != k
    decreases |later|
  {
    hide Step, Inv, Initial;
    if later == [] {
      assert past + later == past;
    } else {
      var front, last := later[..|later| - 1], later[|later| - 1];
      NothingAfterEntry(s, past, front, k);
      assert (past + later)[..|past + later| - 1] == past + front;
      RunKeepsInv(s, past + front);
      if last.0 < |Run(s, past + front).procs| {
        StepLeavesPublished(Run(s, past + front), last.0, last.1, k);
      }
    }
  }

  // ----- What a process returns

  type Cache = map<Key, Entry>

  /** The files found at the start are untouched, and every other one reads back. */
  ghost predicate CacheOk(found: Cache, cache: Cache) {
    && (forall k :: k in found ==> k in cache && cache[k] == found[k])
    && (forall k :: k in cache && k !in found ==> ReadCached(cache[k], k))
  }

  function Worth(entry: Entry, key: Key): Outcome { if ReadCached(entry, key) then Reused else Conflict }

  /**
   Where a file was found the process only reads it, and returns what it is worth; elsewhere no process is on
   its way to a conflict.
   */
  ghost predicate FateOk(found: Cache, p: Process) {
    if p.key in found then p.pc.Start? || p.pc == Reading(false) || p.pc == Done(Worth(found[p.key], p.key))
    else p.pc.Releasing? || p.pc.Done? ==> !p.pc.outcome.Conflict?
  }

  ghost predicate Fates(found: Cache, s: State) {
    CacheOk(found, s.cache) && forall i :: 0 <= i < |s.procs| ==> FateOk(found, s.procs[i])
  }

  lemma LocalFate(found: Cache, s: State, p: Process, c: Choice)
    requires CacheOk(found, s.cache) && ProcessSound(s, p) && FateOk(found, p)
    requires !p.pc.Missed? && !p.pc.Linking? && !p.pc.Releasing?
    ensures FateOk(found, p.(pc := Local(p, p.key in s.cache, Seen(s, p.key), c)))
  {
    hide ReadCached, FinishedEntry, Grounding.ValidReply, Process.Admitted;
  }

  lemma LocalStep(s: State, i: nat, c: Choice)
    requires i < |s.procs|
    ensures var p := s.procs[i];
      p.alive && !c.crash && !p.pc.Missed? && !p.pc.Linking? && !p.pc.Releasing? ==>
        Step(s, i, c).procs == s.procs[i := p.(pc := Local(p, p.key in s.cache, Seen(s, p.key), c))]
  {
    hide Local, ReadCached;
  }

  lemma SharedFate(found: Cache, s: State, i: nat, c: Choice)
    requires i < |s.procs| && ProcessSound(s, s.procs[i]) && FateOk(found, s.procs[i])
    requires var p := s.procs[i]; !p.alive || c.crash || p.pc.Missed? || p.pc.Linking? || p.pc.Releasing?
    ensures |Step(s, i, c).procs| == |s.procs| && FateOk(found, Step(s, i, c).procs[i])
  {
    hide ReadCached, Local, Grounding.ValidReply, Process.Admitted, FinishedEntry;
  }

  lemma StepFate(found: Cache, s: State, i: nat, c: Choice)
    requires Inv(s) && i < |s.procs| && CacheOk(found, s.cache) && FateOk(found, s.procs[i])
    ensures |Step(s, i, c).procs| == |s.procs| && FateOk(found, Step(s, i, c).procs[i])
  {
    var p := s.procs[i];
    assert ProcessSound(s, p);
    hide Step, Inv, ProcessSound, FateOk, CacheOk, Local;
    if p.alive && !c.crash && !p.pc.Missed? && !p.pc.Linking? && !p.pc.Releasing? {
      LocalStep(s, i, c);
      LocalFate(found, s, p, c);
    } else {
      SharedFate(found, s, i, c);
    }
  }

  lemma StepKeepsCache(found: Cache, s: State, i: nat, c: Choice)
    requires Inv(s) && i < |s.procs| && CacheOk(found, s.cache)
    ensures CacheOk(found, Step(s, i, c).cache)
  {
    StepHasEffect(s, i, c);
    hide Step, ReadCached, Grounding.ValidReply, Process.Admitted, Process.Holds, LocksHeld, LogSound;
    assert ProcessSound(s, s.procs[i]);
    hide Inv;
  }

  lemma {:induction false} RunFates(s: State, schedule: Schedule)
    requires Initial(s)
    ensures Fates(s.cache, Run(s, schedule))
  {
    if schedule == [] {
      hide ReadCached;
    } else {
      hide Step, Inv, Initial, Effect, FateOk, CacheOk;
      var last := |schedule| - 1;
      RunFates(s, schedule[..last]);
      RunKeepsInv(s, schedule[..last]);
      var before, i, c := Run(s, schedule[..last]), schedule[last].0, schedule[last].1;
      if i < |before.procs| {
        StepFate(s.cache, before, i, c);
        StepKeepsCache(s.cache, before, i, c);
        OthersStay(before, i, c);
      }
    }
  }

  lemma OthersStay(s: State, i: nat, c: Choice)
    requires i < |s.procs|
    ensures |Step(s, i, c).procs| == |s.procs|
    ensures forall j :: 0 <= j < |s.procs| && j != i ==> Step(s, i, c).procs[j] == s.procs[j]
  {
    StepHasEffect(s, i, c);
    hide Step;
  }

  /**
   Whatever files were found: a process that returns reports a conflict exactly when the file found under its
   key is refused by the reader, and reuses a found one otherwise; what it reuses always reads back.
   */
  lemma OutcomesSound(s: State, schedule: Schedule, i: nat)
    requires Initial(s) && i < |Run(s, schedule).procs| && Run(s, schedule).procs[i].pc.Done?
    ensures
      var r, p := Run(s, schedule), Run(s, schedule).procs[i];
      && (p.pc.outcome.Conflict? <==> p.key in s.cache && !ReadCached(s.cache[p.key], p.key))
      && (p.key in s.cache && ReadCached(s.cache[p.key], p.key) ==> p.pc.outcome.Reused?)
      && (p.pc.outcome.Reused? ==> p.key in r.cache && ReadCached(r.cache[p.key], p.key))
  {
    RunFates(s, schedule);
    RunKeepsInv(s, schedule);
    hide Run, ReadCached, Initial, LocksHeld, LogSound;
    assert ProcessSound(Run(s, schedule), Run(s, schedule).procs[i]);
  }

  /** Every entry published in the run reads back, and every file found is still what it was. */
  lemma PublishedReadBack(s: State, schedule: Schedule, k: Key)
    requires Initial(s)
    ensures k in Run(s, schedule).cache && k !in s.cache ==> ReadCached(Run(s, schedule).cache[k], k)
    ensures k in s.cache ==> k in Run(s, schedule).cache && Run(s, schedule).cache[k] == s.cache[k]
  {
    RunFates(s, schedule);
    hide Run, ReadCached, Initial;
  }

  lemma {:induction false} RunSplits(s: State, a: Schedule, b: Schedule)
    ensures Run(s, a + b) == Run(Run(s, a), b)
    decreases |b|
  {
    if b == [] {
      assert a + b == a;
    } else {
      assert (a + b)[..|a + b| - 1] == a + b[..|b| - 1];
      RunSplits(s, a, b[..|b| - 1]);
    }
  }

  /** A published entry keeps its content through every continuation, crashes included. */
  lemma {:induction false} PublishedNeverChanges(s: State, schedule: Schedule, k: Key)
    requires k in s.cache
    ensures k in Run(s, schedule).cache && Run(s, schedule).cache[k] == s.cache[k]
  {
    if schedule != [] {
      PublishedNeverChanges(s, schedule[..|schedule| - 1], k);
    }
  }

  // ----- One process makes at most one call

  function CallsBy(log: seq<LogEntry>, i: nat): nat {
    if log == [] then 0
    else CallsBy(log[..|log| - 1], i) + (if log[|log| - 1].CallStarted? && log[|log| - 1].caller == i then 1 else 0)
  }

  predicate BeforeCall(pc: Pc) {
    pc.Start? || pc.Missed? || pc.SettingUp? || pc.Rechecking? || pc.Ready? || pc == Reading(true) || pc == Reading(false)
  }

  lemma EffectCounts(s: State, t: State, step: nat, i: nat)
    requires Effect(s, t, step) && i < |s.procs|
    requires CallsBy(s.log, i) <= if BeforeCall(s.procs[i].pc) then 0 else 1
    ensures CallsBy(t.log, i) <= if BeforeCall(t.procs[i].pc) then 0 else 1
  {
    hide CallsBy, Quiet, Acquires, Links, Releases, ReadCached;
    EffectOnLog(s, t, step);
    if t.log != s.log {
      CallsByAppend(s.log, t.log[|s.log|], i);
    }
  }

  lemma CallsByAppend(log: seq<LogEntry>, e: LogEntry, i: nat)
    ensures CallsBy(log + [e], i) == CallsBy(log, i) + (if e.CallStarted? && e.caller == i then 1 else 0)
  {
    assert (log + [e])[..|log|] == log;
  }

  /** A step adds at most one line to the log; the line of a call is its caller's own. */
  lemma EffectOnLog(s: State, t: State, step: nat)
    requires Effect(s, t, step)
    ensures t.log == s.log || (|t.log| == |s.log| + 1 && t.log == s.log + [t.log[|s.log|]])
    ensures t.log != s.log && t.log[|s.log|].CallStarted? ==>
      t.log[|s.log|].caller == step && BeforeCall(s.procs[step].pc) && !BeforeCall(t.procs[step].pc)
  {
    hide ReadCached, Process.Holds;
  }

  lemma {:induction false} AtMostOneCallEach(s: State, schedule: Schedule, i: nat)
    requires Initial(s) && i < |s.procs|
    ensures |Run(s, schedule).procs| == |s.procs|
    ensures CallsBy(Run(s, schedule).log, i) <= if BeforeCall(Run(s, schedule).procs[i].pc) then 0 else 1
  {
    if schedule != [] {
      var last := |schedule| - 1;
      hide Initial, Step, Effect;
      AtMostOneCallEach(s, schedule[..last], i);
      var before := Run(s, schedule[..last]);
      if schedule[last].0 < |before.procs| {
        StepHasEffect(before, schedule[last].0, schedule[last].1);
        StepKeepsCount(before, schedule[last].0, schedule[last].1);
        EffectCounts(before, Step(before, schedule[last].0, schedule[last].1), schedule[last].0, i);
      }
    }
  }

  // ----- A leaked lock

  predicate Outside(pc: Pc) {
    pc.Start? || pc.Missed? || pc == Reading(false) || pc.Leaking? || pc.Done?
  }

  /** The lock is there and nobody alive will ever remove it: its owner crashed or failed to set up. */
  predicate Abandoned(s: State, k: Key) {
    && k in s.locks
    && forall i :: 0 <= i < |s.procs| && s.procs[i].key == k && s.procs[i].alive ==> Outside(s.procs[i].pc)
  }

  function Concerning(log: seq<LogEntry>, k: Key): seq<LogEntry> {
    if log == [] then []
    else
      Concerning(log[..|log| - 1], k) + (if log[|log| - 1].key == k then [log[|log| - 1]] else [])
  }

  /** A process with no way past the lock stays before it, or is done. */
  lemma StepStaysOutside(s: State, i: nat, c: Choice)
    requires i < |s.procs| && s.procs[i].key in s.locks && s.procs[i].alive && Outside(s.procs[i].pc)
    ensures |Step(s, i, c).procs| == |s.procs| && Outside(Step(s, i, c).procs[i].pc)
    ensures Step(s, i, c).locks == s.locks && Step(s, i, c).cache == s.cache && Step(s, i, c).log == s.log
  {
  }

  lemma StepKeepsAbandoned(s: State, i: nat, c: Choice, k: Key)
    requires Abandoned(s, k) && i < |s.procs|
    ensures var t := Step(s, i, c);
      && Abandoned(t, k)
      && Concerning(t.log, k) == Concerning(s.log, k)
      && (k in t.cache <==> k in s.cache) && (k in s.cache ==> t.cache[k] == s.cache[k])
  {
    var t := Step(s, i, c);
    StepHasEffect(s, i, c);
    if s.procs[i].key == k && s.procs[i].alive {
      StepStaysOutside(s, i, c);
    } else if t.log != s.log {
      assert t.log[..|t.log| - 1] == s.log;
    }
  }

  /**
   An abandoned lock only blocks: from then on no call for its key is started or published, whatever
   else happens, and what readers see for that key stays the same.
   */
  lemma {:induction false} AbandonedLockOnlyBlocks(s: State, schedule: Schedule, k: Key)
    requires Abandoned(s, k)
    ensures var t := Run(s, schedule);
      && Abandoned(t, k)
      && Concerning(t.log, k) == Concerning(s.log, k)
      && (k in t.cache <==> k in s.cache) && (k in s.cache ==> t.cache[k] == s.cache[k])
  {
    if schedule != [] {
      var last := |schedule| - 1;
      AbandonedLockOnlyBlocks(s, schedule[..last], k);
      var before := Run(s, schedule[..last]);
      if schedule[last].0 < |before.procs| {
        StepKeepsAbandoned(before, schedule[last].0, schedule[last].1, k);
      }
    }
  }

  /** A holder that crashes leaves its lock abandoned. */
  lemma CrashedHolderAbandons(s: State, schedule: Schedule, i: nat)
    requires Initial(s) && i < |s.procs|
    ensures |Run(s, schedule).procs| == |s.procs|
    ensures
      var r := Run(s, schedule);
      r.procs[i].Holds() && (!r.procs[i].alive || r.procs[i].pc.Leaking?) ==> Abandoned(r, r.procs[i].key)
  {
    RunKeepsInv(s, schedule);
    var r := Run(s, schedule);
    if r.procs[i].Holds() && (!r.procs[i].alive || r.procs[i].pc.Leaking?) {
      forall j | 0 <= j < |r.procs| && r.procs[j].key == r.procs[i].key && r.procs[j].alive
        ensures j == i || !r.procs[j].Holds()
      {
      }
    }
  }
}
