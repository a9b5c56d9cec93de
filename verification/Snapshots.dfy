/**
 Content-addressed snapshots: the file name is the digest of the snapshot without its generation time, and a
 writer that loses the race to link starts over.
 */
module Snapshots {

  /** The snapshot without `generated_at`, and that time. */
  datatype Snapshot<T> = Snapshot(stable: T, generatedAt: int)

  datatype File<T> = Unreadable | Written(snapshot: Snapshot<T>)

  datatype Outcome = Path(existed: bool) | Conflict | Broken

  /** What a writer of `wanted` makes of an existing file. */
  function Existing<T(==)>(file: File<T>, wanted: T): Outcome {
    match file
    case Unreadable => Broken
    case Written(s) => if s.stable == wanted then Path(true) else Conflict
  }

  type Pid = nat

  /** `tries` counts the recursive calls made so far. */
  datatype Phase = Checking(tries: nat) | Staged(tries: nat) | Done(tries: nat, outcome: Outcome) | Crashed

  datatype Event = Check(p: Pid) | Link(p: Pid) | Crash(p: Pid)

  datatype State<T> = State(files: map<T, File<T>>, phases: map<Pid, Phase>)

  function Start<T>(files: map<T, File<T>>, writers: map<Pid, Snapshot<T>>): State<T> {
    State(files, map p | p in writers :: Checking(0))
  }

  function Step<T(==)>(writers: map<Pid, Snapshot<T>>, s: State<T>, e: Event): State<T> {
    if e.p !in writers || e.p !in s.phases then s
    else
      var mine, phase := writers[e.p], s.phases[e.p];
      var key := mine.stable;
      match e
      case Check(p) =>
        if !phase.Checking? then s
        else s.(phases := s.phases[p := if key in s.files then Done(phase.tries, Existing(s.files[key], key)) else Staged(phase.tries)])
      case Link(p) =>
        if !phase.Staged? then s
        else if key in s.files then s.(phases := s.phases[p := Checking(phase.tries + 1)])
        else State(s.files[key := Written(mine)], s.phases[p := Done(phase.tries, Path(false))])
      case Crash(p) =>
        if phase.Done? then s else s.(phases := s.phases[p := Crashed])
  }

  function Run<T(==)>(files: map<T, File<T>>, writers: map<Pid, Snapshot<T>>, events: seq<Event>): State<T> {
    if events == [] then Start(files, writers)
    else Step(writers, Run(files, writers, events[..|events| - 1]), events[|events| - 1])
  }

  /** A writer that started over finds the file: it was there when its link failed and files stay. */
  predicate PhaseOk<T(==)>(files: map<T, File<T>>, key: T, phase: Phase) {
    match phase
    case Checking(tries) => tries <= 1 && (tries == 1 ==> key in files)
    case Staged(tries) => tries == 0
    case Done(tries, outcome) => tries <= 1 && key in files && (outcome == Path(false) || outcome == Existing(files[key], key))
    case Crashed => true
  }

  /** A file is one found at the start or the snapshot its name is the digest of. */
  predicate FileOk<T(==)>(found: map<T, File<T>>, files: map<T, File<T>>, key: T)
    requires key in files
  {
    if key in found then files[key] == found[key] else files[key].Written? && files[key].snapshot.stable == key
  }

  ghost predicate Inv<T(!new)>(found: map<T, File<T>>, writers: map<Pid, Snapshot<T>>, s: State<T>) {
    && s.phases.Keys == writers.Keys
    && (forall key :: key in found ==> key in s.files)
    && (forall key :: key in s.files ==> FileOk(found, s.files, key))
    && (forall p :: p in s.phases && p in writers ==> PhaseOk(s.files, writers[p].stable, s.phases[p]))
  }

  lemma StepKeepsInv<T(!new)>(found: map<T, File<T>>, writers: map<Pid, Snapshot<T>>, s: State<T>, e: Event)
    requires Inv(found, writers, s)
    ensures Inv(found, writers, Step(writers, s, e))
    ensures forall key :: key in s.files ==> key in Step(writers, s, e).files && Step(writers, s, e).files[key] == s.files[key]
  {
    var t := Step(writers, s, e);
    forall p | p in t.phases && p in writers
      ensures PhaseOk(t.files, writers[p].stable, t.phases[p])
    {
      assert PhaseOk(s.files, writers[p].stable, s.phases[p]);
    }
    forall key | key in t.files
      ensures FileOk(found, t.files, key)
    {
      if key in s.files { assert FileOk(found, s.files, key); }
    }
  }

  lemma {:induction false} RunKeepsInv<T(!new)>(found: map<T, File<T>>, writers: map<Pid, Snapshot<T>>, events: seq<Event>)
    ensures Inv(found, writers, Run(found, writers, events))
  {
    if events != [] {
      var front := events[..|events| - 1];
      RunKeepsInv(found, writers, front);
      StepKeepsInv(found, writers, Run(found, writers, front), events[|events| - 1]);
    }
  }

  /** However writers interleave or crash, none starts over more than once. */
  lemma RetriesAtMostOnce<T(!new)>(found: map<T, File<T>>, writers: map<Pid, Snapshot<T>>, events: seq<Event>, p: Pid)
    requires p in writers && p in Run(found, writers, events).phases && !Run(found, writers, events).phases[p].Crashed?
    ensures Run(found, writers, events).phases[p].tries <= 1
  {
    RunKeepsInv(found, writers, events);
    var s := Run(found, writers, events);
    assert PhaseOk(s.files, writers[p].stable, s.phases[p]);
  }

  /**
   A writer whose file was not there before always gets its path, and the file holds its snapshot up to the
   generation time; conflicts come only from files found at the start.
   */
  lemma NewSnapshotsNeverConflict<T(!new)>(found: map<T, File<T>>, writers: map<Pid, Snapshot<T>>, events: seq<Event>, p: Pid)
    requires p in writers && p in Run(found, writers, events).phases && Run(found, writers, events).phases[p].Done?
    ensures var s, key := Run(found, writers, events), writers[p].stable;
      && key in s.files
      && (key !in found ==> s.phases[p].outcome.Path? && s.files[key].Written? && s.files[key].snapshot.stable == key)
      && (key in found ==> s.files[key] == found[key])
  {
    RunKeepsInv(found, writers, events);
    var s, key := Run(found, writers, events), writers[p].stable;
    assert PhaseOk(s.files, key, s.phases[p]);
    assert FileOk(found, s.files, key);
  }

  /** What a writer gets, by the file at its path: whatever another program left there, or a snapshot like its own. */
  lemma OutcomesMean<T(!new)>(found: map<T, File<T>>, writers: map<Pid, Snapshot<T>>, events: seq<Event>, p: Pid)
    requires p in writers && p in Run(found, writers, events).phases && Run(found, writers, events).phases[p].Done?
    ensures var outcome, key := Run(found, writers, events).phases[p].outcome, writers[p].stable;
      && (outcome.Broken? <==> key in found && found[key].Unreadable?)
      && (outcome.Conflict? <==> key in found && found[key].Written? && found[key].snapshot.stable != key)
      && (outcome == Path(false) ==> key !in found)
  {
    NewSnapshotsNeverConflict(found, writers, events, p);
    if writers[p].stable in found { NewOnlyIfAbsent(found, writers, events, p); }
    RunKeepsInv(found, writers, events);
    var s, key := Run(found, writers, events), writers[p].stable;
    assert PhaseOk(s.files, key, s.phases[p]);
  }

  lemma {:induction false} NewOnlyIfAbsent<T(!new)>(found: map<T, File<T>>, writers: map<Pid, Snapshot<T>>, events: seq<Event>, p: Pid)
    requires p in writers && writers[p].stable in found
    ensures var s := Run(found, writers, events);
      p in s.phases && (s.phases[p].Done? ==> s.phases[p].outcome != Path(false))
  {
    if events != [] {
      var front := events[..|events| - 1];
      NewOnlyIfAbsent(found, writers, front, p);
      RunKeepsInv(found, writers, front);
    }
  }

  /** A writer by itself is done after looking, or after looking and linking. */
  lemma LoneWriter<T(!new)>(found: map<T, File<T>>, mine: Snapshot<T>, p: Pid)
    ensures var key, writers := mine.stable, map[p := mine];
      if key in found then Run(found, writers, [Check(p)]) == State(found, map[p := Done(0, Existing(found[key], key))])
      else Run(found, writers, [Check(p), Link(p)]) == State(found[key := Written(mine)], map[p := Done(0, Path(false))])
  {
    var writers := map[p := mine];
    assert Run(found, writers, []) == State(found, map[p := Checking(0)]);
    assert [Check(p)][..0] == [] && [Check(p), Link(p)][..1] == [Check(p)];
    var looked := Run(found, writers, [Check(p)]);
    if mine.stable in found {
      assert looked.phases == map[p := Done(0, Existing(found[mine.stable], mine.stable))];
    } else {
      assert looked.phases == map[p := Staged(0)];
      assert Run(found, writers, [Check(p), Link(p)]).phases == map[p := Done(0, Path(false))];
    }
  }
}
