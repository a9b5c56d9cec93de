/**
 Publish-once artefacts: content-addressed files that concurrent writers link into place. A link either
 creates the file or fails because it exists; files are never rewritten or removed.
 */
module Artifacts {
  import opened Wrappers
  import opened Domain

  // ----- Baseline artefacts

  /** A JSON value of a result: a scalar, or the text of an identifier. */
  datatype Value = Scalar(json: Json) | Identifier(id: Id)

  type Payload = map<string, Value>

  predicate SameValue(a: Value, b: Value) {
    if a.Scalar? && b.Scalar? then PyEqual(a.json, b.json) else a == b
  }

  /** Python's `==` on two results. */
  predicate SamePayload(a: Payload, b: Payload) {
    a.Keys == b.Keys && forall k :: k in a && k in b ==> SameValue(a[k], b[k])
  }

  function StableResult(result: Payload): Payload { result - {"created_at", "pipeline_run_id"} }

  datatype Call = Call(result: Payload, run: PipelineRun)

  /** What the file name is the digest of; the digest is injective. */
  datatype Identity = Identity(stable: Payload, inputHash: Hash, configHash: Hash, stage: Stage)

  function IdentityOf(c: Call): Identity {
    Identity(StableResult(c.result), c.run.inputHash, c.run.configHash, c.run.stage)
  }

  datatype File = Unreadable | Bundle(result: Payload, run: PipelineRun)

  datatype Outcome = Stored(bundle: File, reused: bool) | Conflict

  /** A bundle whose run succeeded and is the run its result names. */
  predicate SelfConsistent(result: Payload, run: PipelineRun) {
    && run.Valid() && run.status.Succeeded?
    && "pipeline_run_id" in result && result["pipeline_run_id"] == Identifier(run.id)
  }

  predicate Reusable(file: File, c: Call) {
    && file.Bundle? && SelfConsistent(file.result, file.run)
    && SamePayload(StableResult(file.result), StableResult(c.result))
    && file.run.inputHash == c.run.inputHash && file.run.configHash == c.run.configHash && file.run.stage == c.run.stage
  }

  function Reuse(file: File, c: Call): Outcome { if Reusable(file, c) then Stored(file, true) else Conflict }

  lemma SamePayloadReflexive(p: Payload)
    ensures SamePayload(p, p)
  {
  }

  /** Callers of one identity cannot be told apart by a stored file. */
  lemma ReuseDependsOnIdentity(file: File, a: Call, b: Call)
    requires IdentityOf(a) == IdentityOf(b)
    ensures Reuse(file, a) == Reuse(file, b)
  {
  }

  /** A bundle written under an identity is reusable under it exactly when it is self-consistent. */
  lemma WrittenReusableIff(writer: Call, c: Call)
    requires IdentityOf(writer) == IdentityOf(c)
    ensures Reusable(Bundle(writer.result, writer.run), c) <==> SelfConsistent(writer.result, writer.run)
  {
    SamePayloadReflexive(StableResult(c.result));
  }

  // ----- Any number of writers

  type Pid = nat

  datatype Phase =
    | Checking                       // about to test whether the file exists
    | Staged                         // absent when tested; a complete temporary file is ready to link
    | Reading                        // the file exists: about to read it
    | Linked                         // this writer created the file
    | Done(outcome: Outcome)
    | Crashed

  datatype Event = Check(p: Pid) | Link(p: Pid) | Read(p: Pid) | Return(p: Pid) | Crash(p: Pid)

  /** `winners` is a record for the proofs: which writer created each file that was not found at the start. */
  datatype State = State(files: map<Identity, File>, winners: map<Identity, Pid>, phases: map<Pid, Phase>)

  function Start(files: map<Identity, File>, calls: map<Pid, Call>): State {
    State(files, map[], map p | p in calls :: Checking)
  }

  function Moved(s: State, p: Pid, phase: Phase): State { s.(phases := s.phases[p := phase]) }

  function Step(calls: map<Pid, Call>, s: State, e: Event): State {
    if e.p !in calls || e.p !in s.phases then s
    else
      var c := calls[e.p];
      var key := IdentityOf(c);
      match e
      case Check(p) =>
        if !s.phases[p].Checking? then s else Moved(s, p, if key in s.files then Reading else Staged)
      case Link(p) =>
        if !s.phases[p].Staged? then s
        else if key in s.files then Moved(s, p, Reading)
        else Moved(s.(files := s.files[key := Bundle(c.result, c.run)], winners := s.winners[key := p]), p, Linked)
      case Read(p) =>
        if !s.phases[p].Reading? || key !in s.files then s else Moved(s, p, Done(Reuse(s.files[key], c)))
      case Return(p) =>
        if !s.phases[p].Linked? then s else Moved(s, p, Done(Stored(Bundle(c.result, c.run), false)))
      case Crash(p) =>
        if s.phases[p].Done? then s else Moved(s, p, Crashed)
  }

  function Run(files: map<Identity, File>, calls: map<Pid, Call>, events: seq<Event>): State {
    if events == [] then Start(files, calls)
    else Step(calls, Run(files, calls, events[..|events| - 1]), events[|events| - 1])
  }

  type Files = map<Identity, File>
  type Winners = map<Identity, Pid>

  /** Where the files come from: found at the start, or written by their winner. */
  ghost predicate FilesOk(found: Files, calls: map<Pid, Call>, files: Files, winners: Winners) {
    && Keeps(found, files)
    && (forall key :: key in files <==> key in found || key in winners)
    && (forall key :: key in winners ==> key !in found)
    && (forall key :: key in winners ==> WonBy(calls, files, key, winners[key]))
  }

  predicate WonBy(calls: map<Pid, Call>, files: Files, key: Identity, w: Pid) {
    w in calls && IdentityOf(calls[w]) == key && key in files && files[key] == Bundle(calls[w].result, calls[w].run)
  }

  predicate Won(calls: map<Pid, Call>, winners: Winners, p: Pid)
    requires p in calls
  {
    IdentityOf(calls[p]) in winners && winners[IdentityOf(calls[p])] == p
  }

  /** What a writer with phase `phase` may rely on, given the file at its path and whether it won. */
  predicate PhaseOk(file: Option<File>, won: bool, c: Call, phase: Phase) {
    match phase
    case Checking | Staged => !won
    case Reading => !won && file.Some?
    case Linked => won && file.Some?
    case Done(outcome) => file.Some? && outcome == if won then Stored(file.value, false) else Reuse(file.value, c)
    case Crashed => true
  }

  function FileAt(files: Files, key: Identity): Option<File> { if key in files then Some(files[key]) else None }

  predicate WriterOk(calls: map<Pid, Call>, files: Files, winners: Winners, p: Pid, phase: Phase)
    requires p in calls
  {
    PhaseOk(FileAt(files, IdentityOf(calls[p])), Won(calls, winners, p), calls[p], phase)
  }

  ghost predicate PhasesOk(calls: map<Pid, Call>, s: State) {
    && s.phases.Keys == calls.Keys
    && forall p :: p in s.phases && p in calls ==> WriterOk(calls, s.files, s.winners, p, s.phases[p])
  }

  ghost predicate Inv(found: Files, calls: map<Pid, Call>, s: State) {
    FilesOk(found, calls, s.files, s.winners) && PhasesOk(calls, s)
  }

  predicate Keeps(a: Files, b: Files) { forall key :: key in a ==> key in b && b[key] == a[key] }

  lemma LinkKeepsFiles(found: Files, calls: map<Pid, Call>, files: Files, winners: Winners, p: Pid)
    requires FilesOk(found, calls, files, winners) && p in calls && IdentityOf(calls[p]) !in files
    ensures var key := IdentityOf(calls[p]);
      FilesOk(found, calls, files[key := Bundle(calls[p].result, calls[p].run)], winners[key := p])
  {
    var key := IdentityOf(calls[p]);
    var more, won := files[key := Bundle(calls[p].result, calls[p].run)], winners[key := p];
    forall k | k in won
      ensures WonBy(calls, more, k, won[k])
    {
      if k != key { assert WonBy(calls, files, k, winners[k]); }
    }
  }

  /** Linking a new file disturbs no other writer: those that rely on a file rely on another one. */
  lemma LinkKeepsWriter(calls: map<Pid, Call>, files: Files, winners: Winners, p: Pid, file: File, q: Pid, phase: Phase)
    requires p in calls && q in calls && IdentityOf(calls[p]) !in files && IdentityOf(calls[p]) !in winners
    requires WriterOk(calls, files, winners, q, phase)
    ensures var key := IdentityOf(calls[p]);
      WriterOk(calls, files[key := file], winners[key := p], q, if q == p then Linked else phase)
  {
    hide Reusable, StableResult;
  }

  lemma LinkKeepsInv(found: Files, calls: map<Pid, Call>, s: State, p: Pid)
    requires Inv(found, calls, s) && p in calls && p in s.phases && IdentityOf(calls[p]) !in s.files
    ensures var key := IdentityOf(calls[p]);
      Inv(found, calls, State(s.files[key := Bundle(calls[p].result, calls[p].run)], s.winners[key := p], s.phases[p := Linked]))
  {
    var key := IdentityOf(calls[p]);
    LinkKeepsFiles(found, calls, s.files, s.winners, p);
    assert key !in s.winners;
    hide FilesOk, WriterOk, IdentityOf;
    var file, phases := Bundle(calls[p].result, calls[p].run), s.phases[p := Linked];
    forall q | q in phases && q in calls
      ensures WriterOk(calls, s.files[key := file], s.winners[key := p], q, phases[q])
    {
      LinkKeepsWriter(calls, s.files, s.winners, p, file, q, s.phases[q]);
    }
  }

  lemma MoveKeepsInv(found: Files, calls: map<Pid, Call>, s: State, p: Pid, phase: Phase)
    requires Inv(found, calls, s) && p in calls && WriterOk(calls, s.files, s.winners, p, phase)
    ensures Inv(found, calls, Moved(s, p, phase))
  {
    hide FilesOk, WriterOk;
  }

  lemma StepKeepsInv(found: Files, calls: map<Pid, Call>, s: State, e: Event)
    requires Inv(found, calls, s)
    ensures Inv(found, calls, Step(calls, s, e))
  {
    hide FilesOk, PhasesOk, IdentityOf, WriterOk, Moved, Reuse;
    if e.p in calls && e.p in s.phases && Step(calls, s, e) != s {
      var key := IdentityOf(calls[e.p]);
      assert WriterOk(calls, s.files, s.winners, e.p, s.phases[e.p]) by { assert PhasesOk(calls, s); OwnPhase(calls, s, e.p); }
      match e
      case Check(p) =>
        var next := if key in s.files then Reading else Staged;
        NextPhase(calls, s, p, next);
        MoveKeepsInv(found, calls, s, p, next);
      case Link(p) =>
        if key in s.files {
          NextPhase(calls, s, p, Reading);
          MoveKeepsInv(found, calls, s, p, Reading);
        } else {
          LinkKeepsInv(found, calls, s, p);
          LinkedState(calls, s, p);
        }
      case Read(p) =>
        NextPhase(calls, s, p, Done(Reuse(s.files[key], calls[p])));
        MoveKeepsInv(found, calls, s, p, Done(Reuse(s.files[key], calls[p])));
      case Return(p) =>
        WinnersFile(found, calls, s, p);
        NextPhase(calls, s, p, Done(Stored(Bundle(calls[p].result, calls[p].run), false)));
        MoveKeepsInv(found, calls, s, p, Done(Stored(Bundle(calls[p].result, calls[p].run), false)));
      case Crash(p) =>
        NextPhase(calls, s, p, Crashed);
        MoveKeepsInv(found, calls, s, p, Crashed);
    }
  }

  lemma OwnPhase(calls: map<Pid, Call>, s: State, p: Pid)
    requires PhasesOk(calls, s) && p in calls && p in s.phases
    ensures WriterOk(calls, s.files, s.winners, p, s.phases[p])
  {
    hide WriterOk;
  }

  lemma WinnersFile(found: Files, calls: map<Pid, Call>, s: State, p: Pid)
    requires Inv(found, calls, s) && p in calls && p in s.phases && s.phases[p].Linked?
    ensures FileAt(s.files, IdentityOf(calls[p])) == Some(Bundle(calls[p].result, calls[p].run))
  {
    OwnPhase(calls, s, p);
    assert WonBy(calls, s.files, IdentityOf(calls[p]), p);
  }

  lemma LinkedState(calls: map<Pid, Call>, s: State, p: Pid)
    requires p in calls && p in s.phases && s.phases[p].Staged? && IdentityOf(calls[p]) !in s.files
    ensures var key := IdentityOf(calls[p]);
      Step(calls, s, Link(p)) ==
        State(s.files[key := Bundle(calls[p].result, calls[p].run)], s.winners[key := p], s.phases[p := Linked])
  {
  }

  /** The moves that link nothing, seen from the mover. */
  lemma NextPhase(calls: map<Pid, Call>, s: State, p: Pid, next: Phase)
    requires p in calls && p in s.phases && WriterOk(calls, s.files, s.winners, p, s.phases[p])
    requires var file := FileAt(s.files, IdentityOf(calls[p]));
      match s.phases[p]
      case Checking | Staged => next == Staged || (next == Reading && file.Some?) || next == Crashed
      case Reading => (file.Some? && next == Done(Reuse(file.value, calls[p]))) || next == Crashed
      case Linked => (file.Some? && next == Done(Stored(file.value, false))) || next == Crashed
      case _ => next == Crashed
    ensures WriterOk(calls, s.files, s.winners, p, next)
  {
  }

  lemma {:induction false} RunKeepsInv(found: Files, calls: map<Pid, Call>, events: seq<Event>)
    ensures Inv(found, calls, Run(found, calls, events))
  {
    if events == [] {
      hide Reusable;
    } else {
      hide Inv, Step;
      RunKeepsInv(found, calls, events[..|events| - 1]);
      StepKeepsInv(found, calls, Run(found, calls, events[..|events| - 1]), events[|events| - 1]);
    }
  }

  /** No step alters or removes a file. */
  lemma StepKeepsFiles(calls: map<Pid, Call>, s: State, e: Event)
    ensures Keeps(s.files, Step(calls, s, e).files)
  {
  }

  /** A published file never changes, whatever happens afterwards. */
  lemma {:induction false} FilesNeverChange(found: Files, calls: map<Pid, Call>, events: seq<Event>, later: seq<Event>)
    ensures Keeps(Run(found, calls, events).files, Run(found, calls, events + later).files)
  {
    if later == [] {
      assert events + later == events;
    } else {
      var front := later[..|later| - 1];
      FilesNeverChange(found, calls, events, front);
      assert (events + later)[..|events + later| - 1] == events + front;
      hide Step;
      StepKeepsFiles(calls, Run(found, calls, events + front), later[|later| - 1]);
    }
  }

  predicate Returned(s: State, p: Pid) { p in s.phases && s.phases[p].Done? }

  predicate ReturnedNew(s: State, p: Pid) {
    p in s.phases && s.phases[p].Done? && s.phases[p].outcome.Stored? && !s.phases[p].outcome.reused
  }

  /** Of the writers of one identity at most one ever returns "not reused". */
  lemma AtMostOneNew(found: Files, calls: map<Pid, Call>, events: seq<Event>, p: Pid, q: Pid)
    requires p in calls && q in calls && IdentityOf(calls[p]) == IdentityOf(calls[q])
    requires ReturnedNew(Run(found, calls, events), p) && ReturnedNew(Run(found, calls, events), q)
    ensures p == q
  {
    RunKeepsInv(found, calls, events);
    NewIsWinner(found, calls, Run(found, calls, events), p);
    NewIsWinner(found, calls, Run(found, calls, events), q);
  }

  lemma NewIsWinner(found: Files, calls: map<Pid, Call>, s: State, p: Pid)
    requires Inv(found, calls, s) && p in calls && ReturnedNew(s, p)
    ensures Won(calls, s.winners, p)
  {
    assert WriterOk(calls, s.files, s.winners, p, s.phases[p]);
  }

  /**
   Writers of an identity that was not there before: once all of them have returned, exactly one returned
   "not reused", and it wrote the file.
   */
  lemma ExactlyOneNew(found: Files, calls: map<Pid, Call>, events: seq<Event>, p: Pid) returns (w: Pid)
    requires p in calls && IdentityOf(calls[p]) !in found
    requires forall q :: q in calls && IdentityOf(calls[q]) == IdentityOf(calls[p]) ==> Returned(Run(found, calls, events), q)
    ensures w in calls && IdentityOf(calls[w]) == IdentityOf(calls[p]) && ReturnedNew(Run(found, calls, events), w)
    ensures IdentityOf(calls[p]) in Run(found, calls, events).files
    ensures Run(found, calls, events).files[IdentityOf(calls[p])] == Bundle(calls[w].result, calls[w].run)
  {
    RunKeepsInv(found, calls, events);
    var s := Run(found, calls, events);
    var key := IdentityOf(calls[p]);
    assert WriterOk(calls, s.files, s.winners, p, s.phases[p]) by { assert Returned(s, p); }
    w := s.winners[key];
    assert WonBy(calls, s.files, key, w);
    assert Returned(s, w);
    assert WriterOk(calls, s.files, s.winners, w, s.phases[w]);
  }

  /**
   Self-consistent writers of a new identity never conflict; each gets the one published bundle, which has
   its own result up to run identifier and creation time, and its own hashes and stage.
   */
  lemma EveryoneGetsOneBundle(found: Files, calls: map<Pid, Call>, events: seq<Event>, p: Pid)
    requires p in calls && Returned(Run(found, calls, events), p) && IdentityOf(calls[p]) !in found
    requires forall q :: q in calls && IdentityOf(calls[q]) == IdentityOf(calls[p]) ==> SelfConsistent(calls[q].result, calls[q].run)
    ensures var s, c := Run(found, calls, events), calls[p];
      && s.phases[p].outcome.Stored? && IdentityOf(c) in s.files
      && var bundle := s.phases[p].outcome.bundle;
      && bundle == s.files[IdentityOf(c)] && bundle.Bundle?
      && StableResult(bundle.result) == StableResult(c.result)
      && bundle.run.inputHash == c.run.inputHash && bundle.run.configHash == c.run.configHash && bundle.run.stage == c.run.stage
      && SelfConsistent(bundle.result, bundle.run)
  {
    RunKeepsInv(found, calls, events);
    var s, key := Run(found, calls, events), IdentityOf(calls[p]);
    assert WriterOk(calls, s.files, s.winners, p, s.phases[p]);
    var w := s.winners[key];
    assert WonBy(calls, s.files, key, w);
    WrittenReusableIff(calls[w], calls[p]);
    hide Inv, Run, SelfConsistent, Reusable;
  }

  /** In general a returned writer conflicts exactly when the file at its path - found or published - is not reusable. */
  lemma ConflictIff(found: Files, calls: map<Pid, Call>, events: seq<Event>, p: Pid)
    requires p in calls && Returned(Run(found, calls, events), p) && !ReturnedNew(Run(found, calls, events), p)
    ensures var s, key := Run(found, calls, events), IdentityOf(calls[p]);
      && key in s.files
      && (s.phases[p].outcome.Conflict? <==> !Reusable(s.files[key], calls[p]))
      && (key in found ==> s.files[key] == found[key])
      && (key !in found ==>
            exists w :: WonBy(calls, s.files, key, w)
                        && (s.phases[p].outcome.Conflict? <==> !SelfConsistent(calls[w].result, calls[w].run)))
  {
    RunKeepsInv(found, calls, events);
    var s, key := Run(found, calls, events), IdentityOf(calls[p]);
    assert WriterOk(calls, s.files, s.winners, p, s.phases[p]);
    if key !in found {
      assert WonBy(calls, s.files, key, s.winners[key]);
      WrittenReusableIff(calls[s.winners[key]], calls[p]);
    }
    hide Run, SelfConsistent, Reusable;
  }

  // ----- The code of one writer

  /** What one call amounts to: its own steps, with whatever other writers do between the check and the link. */
  function Schedule(p: Pid, found: bool, others: seq<Event>, lost: bool): seq<Event> {
    if found then [Event.Check(p), Read(p)]
    else [Event.Check(p)] + others + if lost then [Link(p), Read(p)] else [Link(p), Return(p)]
  }

  predicate OfOthers(p: Pid, events: seq<Event>) { forall i :: 0 <= i < |events| ==> events[i].p != p }

  lemma RunMore(found: Files, calls: map<Pid, Call>, events: seq<Event>, e: Event)
    ensures Run(found, calls, events + [e]) == Step(calls, Run(found, calls, events), e)
  {
    assert (events + [e])[..|events + [e]| - 1] == events;
    hide Step;
  }

  /** Others cannot change where a writer is. */
  lemma {:induction false} OthersLeavePhase(found: Files, calls: map<Pid, Call>, events: seq<Event>, others: seq<Event>, p: Pid)
    requires OfOthers(p, others) && p in Run(found, calls, events).phases
    ensures p in Run(found, calls, events + others).phases
    ensures Run(found, calls, events + others).phases[p] == Run(found, calls, events).phases[p]
  {
    if others == [] {
      assert events + others == events;
    } else {
      var front, e := others[..|others| - 1], others[|others| - 1];
      OthersLeavePhase(found, calls, events, front, p);
      assert events + others == (events + front) + [e];
      RunMore(found, calls, events + front, e);
      hide Run;
    }
  }

  /** Two more steps of one writer. */
  lemma RunTwo(found: Files, calls: map<Pid, Call>, events: seq<Event>, a: Event, b: Event)
    ensures Run(found, calls, events + [a, b]) == Step(calls, Step(calls, Run(found, calls, events), a), b)
  {
    hide Run, Step;
    RunMore(found, calls, events, a);
    RunMore(found, calls, events + [a], b);
    assert events + [a] + [b] == events + [a, b];
  }

  class ArtifactStore {
    var files: Files

    constructor (found: Files)
      ensures files == found
    {
      files := found;
    }

    /**
     One call, after any history of any writers: `arrived` is the directory as the other writers have left it
     when this one comes to link. The call is the run of its own steps around theirs; it never alters a file,
     leaves one at its path, and returns either the bundle it wrote itself or what that file is worth.
     */
    method StoreBaselineArtifact(
      result: Payload, run: PipelineRun, arrived: Files, ghost found: Files, ghost calls: map<Pid, Call>,
      ghost history: seq<Event>, ghost p: Pid, ghost others: seq<Event>) returns (outcome: Outcome)
      requires p in calls && calls[p] == Call(result, run)
      requires files == Run(found, calls, history).files
      requires p in Run(found, calls, history).phases && Run(found, calls, history).phases[p].Checking?
      requires OfOthers(p, others) && arrived == Run(found, calls, history + [Event.Check(p)] + others).files
      modifies this
      ensures var key := IdentityOf(Call(result, run));
        var done := Run(found, calls, history + Schedule(p, key in old(files), others, key in arrived));
        && files == done.files && p in done.phases && done.phases[p] == Done(outcome)
        && Keeps(old(files), files) && key in files
        && (if outcome.Stored? && !outcome.reused then key !in old(files) && files[key] == Bundle(result, run) == outcome.bundle
            else outcome == Reuse(files[key], Call(result, run)))
    {
      var c := Call(result, run);
      var key := IdentityOf(c);
      StoredRun(found, calls, history, p, others);
      if key in files {
        return Reuse(files[key], c);
      }
      var bundle := Bundle(result, run);
      files := arrived;
      if key in files {
        return Reuse(files[key], c);
      }
      files := files[key := bundle];
      outcome := Stored(bundle, false);
    }
  }

  /** Where the steps of one call lead, in the three ways it can go. */
  lemma StoredRun(found: Files, calls: map<Pid, Call>, history: seq<Event>, p: Pid, others: seq<Event>)
    requires p in calls && OfOthers(p, others)
    requires p in Run(found, calls, history).phases && Run(found, calls, history).phases[p].Checking?
    ensures var c, before, arrived := calls[p], Run(found, calls, history).files, Run(found, calls, history + [Event.Check(p)] + others).files;
      var key := IdentityOf(c);
      var done := Run(found, calls, history + Schedule(p, key in before, others, key in arrived));
      && p in done.phases && Keeps(before, arrived)
      && (key in before ==> done.files == before && done.phases[p] == Done(Reuse(before[key], c)))
      && (key !in before && key in arrived ==> done.files == arrived && done.phases[p] == Done(Reuse(arrived[key], c)))
      && (key !in before && key !in arrived ==>
            && done.files == arrived[key := Bundle(c.result, c.run)]
            && done.phases[p] == Done(Stored(Bundle(c.result, c.run), false)))
  {
    hide Run, Step, Reuse, IdentityOf;
    var key, checked := IdentityOf(calls[p]), history + [Event.Check(p)];
    RunMore(found, calls, history, Event.Check(p));
    FilesNeverChange(found, calls, history, [Event.Check(p)] + others);
    assert history + ([Event.Check(p)] + others) == checked + others;
    if key in Run(found, calls, history).files {
      RunTwo(found, calls, history, Event.Check(p), Read(p));
      FoundSteps(calls, Run(found, calls, history), p);
    } else {
      CheckStages(calls, Run(found, calls, history), p);
      OthersLeavePhase(found, calls, checked, others, p);
      var s := Run(found, calls, checked + others);
      var last := if key in s.files then Read(p) else Return(p);
      RunTwo(found, calls, checked + others, Link(p), last);
      LinkSteps(calls, s, p);
      assert history + ([Event.Check(p)] + others + [Link(p), last]) == checked + others + [Link(p), last];
    }
  }

  lemma FoundSteps(calls: map<Pid, Call>, s: State, p: Pid)
    requires p in calls && p in s.phases && s.phases[p].Checking? && IdentityOf(calls[p]) in s.files
    ensures var t := Step(calls, Step(calls, s, Event.Check(p)), Read(p));
      t.files == s.files && p in t.phases && t.phases[p] == Done(Reuse(s.files[IdentityOf(calls[p])], calls[p]))
  {
    hide IdentityOf, Reuse;
  }

  lemma CheckStages(calls: map<Pid, Call>, s: State, p: Pid)
    requires p in calls && p in s.phases && s.phases[p].Checking? && IdentityOf(calls[p]) !in s.files
    ensures p in Step(calls, s, Event.Check(p)).phases && Step(calls, s, Event.Check(p)).phases[p].Staged?
  {
    hide IdentityOf;
  }

  lemma LinkSteps(calls: map<Pid, Call>, s: State, p: Pid)
    requires p in calls && p in s.phases && s.phases[p].Staged?
    ensures var key, bundle := IdentityOf(calls[p]), Bundle(calls[p].result, calls[p].run);
      var lost, won := Step(calls, Step(calls, s, Link(p)), Read(p)), Step(calls, Step(calls, s, Link(p)), Return(p));
      && (key in s.files ==> lost.files == s.files && p in lost.phases && lost.phases[p] == Done(Reuse(s.files[key], calls[p])))
      && (key !in s.files ==>
            won.files == s.files[key := bundle] && p in won.phases && won.phases[p] == Done(Stored(bundle, false)))
  {
    hide IdentityOf, Reuse;
  }

  // ----- What identity and reuse compare

  /** Two calls write to one path exactly if their results agree but for run and creation time, and their runs in kind. */
  lemma SameIdentityIff(a: Call, b: Call)
    ensures IdentityOf(a) == IdentityOf(b) <==>
      && (forall k :: k !in {"created_at", "pipeline_run_id"} ==>
            (k in a.result <==> k in b.result) && (k in a.result && k in b.result ==> a.result[k] == b.result[k]))
      && a.run.inputHash == b.run.inputHash && a.run.configHash == b.run.configHash && a.run.stage == b.run.stage
  {
    var x, y := StableResult(a.result), StableResult(b.result);
    assert x == y <==> x.Keys == y.Keys && forall k :: k in x ==> x[k] == y[k];
    assert forall k :: k in x <==> k in a.result && k !in {"created_at", "pipeline_run_id"};
    assert forall k :: k in y <==> k in b.result && k !in {"created_at", "pipeline_run_id"};
  }

  /** A file is reused exactly if it is a succeeded bundle naming its own run that agrees likewise, value by value. */
  lemma ReusableIff(file: File, c: Call)
    ensures Reusable(file, c) <==>
      && file.Bundle? && file.run.Valid() && file.run.status == Succeeded
      && "pipeline_run_id" in file.result && file.result["pipeline_run_id"] == Identifier(file.run.id)
      && (forall k :: k !in {"created_at", "pipeline_run_id"} ==>
            (k in file.result <==> k in c.result) && (k in file.result && k in c.result ==> SameValue(file.result[k], c.result[k])))
      && file.run.inputHash == c.run.inputHash && file.run.configHash == c.run.configHash && file.run.stage == c.run.stage
  {
    if file.Bundle? {
      var x, y := StableResult(file.result), StableResult(c.result);
      assert forall k :: k in x <==> k in file.result && k !in {"created_at", "pipeline_run_id"};
      assert forall k :: k in y <==> k in c.result && k !in {"created_at", "pipeline_run_id"};
    }
    hide SameValue;
  }
}
