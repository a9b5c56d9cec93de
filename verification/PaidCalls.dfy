/**
 Where published entries come from and what becomes of one call: over every run of the protocol, each new entry
 is what grounding made of one complete reply, and a call that nothing goes wrong for publishes it.
 */
module PaidCalls {
  import opened Wrappers
  import opened Domain
  import opened SingleFlight
  import Grounding

  // ----- Received replies

  /** At event `t` the call of process `i` returned `reply`, complete and of the expected form. */
  ghost predicate ReceivedAt(s: State, schedule: Schedule, t: nat, i: nat, reply: Grounding.Reply) {
    && t < |schedule| && schedule[t].0 == i
    && var before, c := Run(s, schedule[..t]), schedule[t].1;
    && i < |before.procs| && before.procs[i].alive && before.procs[i].pc == Calling
    && !c.crash && !c.fails && c.stopped && c.reply == reply && Grounding.ValidReply(reply)
  }

  ghost predicate Received(s: State, schedule: Schedule, i: nat, reply: Grounding.Reply) {
    exists t: nat :: ReceivedAt(s, schedule, t, i, reply)
  }

  /** The entry is what grounding makes of the reply for this process, under its own run. */
  ghost predicate MadeFrom(entry: Entry, p: Process, reply: Grounding.Reply) {
    && entry.Entry? && Grounding.Grounding(reply, p.job) == Ok(entry.extraction)
    && entry.configuration == p.key.configuration
    && entry.run.id == p.job.run && entry.run.stage == LlmExtracted && entry.run.status == Succeeded
    && entry.run.inputHash == OfDocument(p.key.parsed) && entry.run.configHash == OfConfiguration(p.key.configuration)
    && entry.run.startedAt == p.startedAt && entry.run.finishedAt.Some? && p.startedAt <= entry.run.finishedAt.value
  }

  /** Process `i` received a reply that the entry is made from. */
  ghost predicate Earned(s: State, schedule: Schedule, i: nat, p: Process, entry: Entry) {
    exists reply :: Received(s, schedule, i, reply) && MadeFrom(entry, p, reply)
  }

  ghost predicate PcEarned(s: State, schedule: Schedule, i: nat, p: Process, cache: map<Key, Entry>) {
    match p.pc
    case Replied(reply, stopped) => stopped ==> Received(s, schedule, i, reply)
    case Linking(entry) => Earned(s, schedule, i, p, entry)
    case Releasing(outcome) => outcome.Published? ==> p.key in cache && Earned(s, schedule, i, p, cache[p.key])
    case Done(outcome) => outcome.Published? ==> p.key in cache && Earned(s, schedule, i, p, cache[p.key])
    case _ => true
  }

  ghost predicate EntryEarned(s: State, schedule: Schedule, procs: seq<Process>, k: Key, entry: Entry) {
    exists i: nat :: i < |procs| && procs[i].key == k && Earned(s, schedule, i, procs[i], entry)
  }

  ghost predicate AllEarned(s: State, schedule: Schedule, r: State) {
    && (forall i: nat :: i < |r.procs| ==> PcEarned(s, schedule, i, r.procs[i], r.cache))
    && (forall k :: k in r.cache && k !in s.cache ==> EntryEarned(s, schedule, r.procs, k, r.cache[k]))
  }

  lemma ReceivedLater(s: State, past: Schedule, e: (nat, Choice), i: nat, reply: Grounding.Reply)
    requires Received(s, past, i, reply)
    ensures Received(s, past + [e], i, reply)
  {
    hide Run;
    var t: nat :| ReceivedAt(s, past, t, i, reply);
    assert (past + [e])[..t] == past[..t];
    assert ReceivedAt(s, past + [e], t, i, reply);
  }

  lemma EarnedLater(s: State, past: Schedule, e: (nat, Choice), i: nat, p: Process, q: Process, entry: Entry)
    requires Earned(s, past, i, p, entry) && q.key == p.key && q.job == p.job && q.startedAt == p.startedAt
    ensures Earned(s, past + [e], i, q, entry)
  {
    hide Received;
    var reply :| Received(s, past, i, reply) && MadeFrom(entry, p, reply);
    ReceivedLater(s, past, e, i, reply);
    assert MadeFrom(entry, q, reply);
  }

  /** A step changes nothing of a process but its counter and whether it lives, and of the cache nothing but new keys. */
  lemma StepKeepsIdentity(s: State, i: nat, c: Choice)
    requires i < |s.procs|
    ensures var t := Step(s, i, c);
      && |t.procs| == |s.procs|
      && (forall j :: 0 <= j < |s.procs| ==>
            t.procs[j].key == s.procs[j].key && t.procs[j].job == s.procs[j].job && t.procs[j].startedAt == s.procs[j].startedAt)
      && (forall j :: 0 <= j < |s.procs| && j != i ==> t.procs[j] == s.procs[j])
      && (forall k :: k in s.cache ==> k in t.cache && t.cache[k] == s.cache[k])
  {
    hide Local, ReadCached;
  }

  lemma FinishedIsMade(p: Process, reply: Grounding.Reply, now: Time)
    requires FinishedEntry(p, reply, now).Some?
    ensures MadeFrom(FinishedEntry(p, reply, now).value, p, reply)
  {
  }

  /** What the next step of a process needs to be earned. */
  ghost predicate NextEarned(s: State, past: Schedule, i: nat, c: Choice)
    requires i < |Run(s, past).procs|
  {
    var t := Step(Run(s, past), i, c);
    i < |t.procs| && PcEarned(s, past + [(i, c)], i, t.procs[i], t.cache)
  }

  lemma CallEarned(s: State, past: Schedule, i: nat, c: Choice)
    requires i < |Run(s, past).procs| && Run(s, past).procs[i].pc.Calling?
    ensures NextEarned(s, past, i, c)
  {
    var e := (i, c);
    assert (past + [e])[..|past|] == past;
    hide Run, ReadCached, MadeFrom, Grounding.ValidReply, Earned;
    if Run(s, past).procs[i].alive && !c.crash && !c.fails && c.stopped && Grounding.ValidReply(c.reply) {
      assert ReceivedAt(s, past + [e], |past|, i, c.reply);
    }
  }

  lemma ReplyEarned(s: State, past: Schedule, i: nat, c: Choice)
    requires i < |Run(s, past).procs| && Run(s, past).procs[i].pc.Replied?
    requires PcEarned(s, past, i, Run(s, past).procs[i], Run(s, past).cache)
    ensures NextEarned(s, past, i, c)
  {
    hide Run, ReadCached, MadeFrom, Received, Grounding.ValidReply, FinishedEntry;
    var p := Run(s, past).procs[i];
    if p.pc.stopped {
      ReceivedLater(s, past, (i, c), i, p.pc.reply);
      if FinishedEntry(p, p.pc.reply, c.now).Some? {
        FinishedIsMade(p, p.pc.reply, c.now);
        var q := p.(pc := Linking(FinishedEntry(p, p.pc.reply, c.now).value));
        SameMade(FinishedEntry(p, p.pc.reply, c.now).value, p, q, p.pc.reply);
        assert Earned(s, past + [(i, c)], i, q, FinishedEntry(p, p.pc.reply, c.now).value);
      }
    }
    hide Earned;
  }

  lemma SameMade(entry: Entry, p: Process, q: Process, reply: Grounding.Reply)
    requires MadeFrom(entry, p, reply) && q.key == p.key && q.job == p.job && q.startedAt == p.startedAt
    ensures MadeFrom(entry, q, reply)
  {
  }

  lemma LinkEarned(s: State, past: Schedule, i: nat, c: Choice)
    requires i < |Run(s, past).procs| && Run(s, past).procs[i].pc.Linking?
    requires PcEarned(s, past, i, Run(s, past).procs[i], Run(s, past).cache)
    ensures NextEarned(s, past, i, c)
  {
    hide Run, ReadCached, MadeFrom, Received, Earned;
    var r := Run(s, past);
    EarnedLater(s, past, (i, c), i, r.procs[i], Step(r, i, c).procs[i], r.procs[i].pc.entry);
  }

  lemma PublishedEarned(s: State, past: Schedule, i: nat, c: Choice)
    requires i < |Run(s, past).procs| && (Run(s, past).procs[i].pc.Releasing? || Run(s, past).procs[i].pc.Done?)
    requires PcEarned(s, past, i, Run(s, past).procs[i], Run(s, past).cache)
    ensures NextEarned(s, past, i, c)
  {
    hide Run, ReadCached, MadeFrom, Received, Earned;
    var r := Run(s, past);
    if r.procs[i].pc.outcome.Published? {
      EarnedLater(s, past, (i, c), i, r.procs[i], Step(r, i, c).procs[i], r.cache[r.procs[i].key]);
    }
  }

  /** The step that receives a reply, the one that makes an entry of it, and those after. */
  lemma OwnStepEarned(s: State, past: Schedule, i: nat, c: Choice)
    requires i < |Run(s, past).procs| && PcEarned(s, past, i, Run(s, past).procs[i], Run(s, past).cache)
    ensures NextEarned(s, past, i, c)
  {
    match Run(s, past).procs[i].pc
    case Calling => CallEarned(s, past, i, c);
    case Replied(_, _) => ReplyEarned(s, past, i, c);
    case Linking(_) => LinkEarned(s, past, i, c);
    case Releasing(_) => PublishedEarned(s, past, i, c);
    case Done(_) => PublishedEarned(s, past, i, c);
    case _ => hide Run, ReadCached, Received, Earned;
  }

  lemma OtherStaysEarned(s: State, past: Schedule, i: nat, c: Choice, j: nat)
    requires var r := Run(s, past); i < |r.procs| && j < |r.procs| && j != i && PcEarned(s, past, j, r.procs[j], r.cache)
    ensures var t := Step(Run(s, past), i, c);
      j < |t.procs| && PcEarned(s, past + [(i, c)], j, t.procs[j], t.cache)
  {
    var r, e := Run(s, past), (i, c);
    var p := r.procs[j];
    StepKeepsIdentity(r, i, c);
    hide Run, Step, Received, Earned;
    match p.pc
    case Replied(reply, stopped) => if stopped { ReceivedLater(s, past, e, j, reply); }
    case Linking(entry) => EarnedLater(s, past, e, j, p, p, entry);
    case Releasing(o) => if o.Published? { EarnedLater(s, past, e, j, p, p, r.cache[p.key]); }
    case Done(o) => if o.Published? { EarnedLater(s, past, e, j, p, p, r.cache[p.key]); }
    case _ =>
  }

  lemma EntryStaysEarned(s: State, past: Schedule, i: nat, c: Choice, k: Key)
    requires var r := Run(s, past); i < |r.procs| && k in r.cache && EntryEarned(s, past, r.procs, k, r.cache[k])
    ensures var t := Step(Run(s, past), i, c);
      k in t.cache && EntryEarned(s, past + [(i, c)], t.procs, k, t.cache[k])
  {
    var r, t := Run(s, past), Step(Run(s, past), i, c);
    StepKeepsIdentity(r, i, c);
    hide Run, Step, Earned;
    var j: nat :| j < |r.procs| && r.procs[j].key == k && Earned(s, past, j, r.procs[j], r.cache[k]);
    EarnedLater(s, past, (i, c), j, r.procs[j], t.procs[j], r.cache[k]);
  }

  /** A key that appears with this step is the one just linked. */
  lemma NewEntryEarned(s: State, past: Schedule, i: nat, c: Choice, k: Key)
    requires i < |Run(s, past).procs| && PcEarned(s, past, i, Run(s, past).procs[i], Run(s, past).cache)
    requires k in Step(Run(s, past), i, c).cache && k !in Run(s, past).cache
    ensures var t := Step(Run(s, past), i, c); EntryEarned(s, past + [(i, c)], t.procs, k, t.cache[k])
  {
    var r, t := Run(s, past), Step(Run(s, past), i, c);
    hide Run, ReadCached, Received, Earned, Local;
    var p := r.procs[i];
    assert p.pc.Linking? && p.key == k && t.cache[k] == p.pc.entry && t.procs[i].key == k;
    EarnedLater(s, past, (i, c), i, p, t.procs[i], p.pc.entry);
    hide Step;
    assert Earned(s, past + [(i, c)], i, t.procs[i], t.cache[k]);
  }

  lemma StepEarned(s: State, past: Schedule, i: nat, c: Choice)
    requires i < |Run(s, past).procs| && AllEarned(s, past, Run(s, past))
    ensures AllEarned(s, past + [(i, c)], Step(Run(s, past), i, c))
  {
    var r, t := Run(s, past), Step(Run(s, past), i, c);
    StepKeepsIdentity(r, i, c);
    hide Run, Step, EntryEarned, PcEarned;
    forall j: nat | j < |t.procs|
      ensures PcEarned(s, past + [(i, c)], j, t.procs[j], t.cache)
    {
      if j == i { OwnStepEarned(s, past, i, c); } else { OtherStaysEarned(s, past, i, c, j); }
    }
    forall k | k in t.cache && k !in s.cache
      ensures EntryEarned(s, past + [(i, c)], t.procs, k, t.cache[k])
    {
      if k in r.cache { EntryStaysEarned(s, past, i, c, k); } else { NewEntryEarned(s, past, i, c, k); }
    }
  }

  lemma PcStaysEarned(s: State, past: Schedule, e: (nat, Choice), j: nat, p: Process, cache: map<Key, Entry>)
    requires PcEarned(s, past, j, p, cache)
    ensures PcEarned(s, past + [e], j, p, cache)
  {
    hide Run, Received, Earned;
    match p.pc
    case Replied(reply, stopped) => if stopped { ReceivedLater(s, past, e, j, reply); }
    case Linking(entry) => EarnedLater(s, past, e, j, p, p, entry);
    case Releasing(o) => if o.Published? { EarnedLater(s, past, e, j, p, p, cache[p.key]); }
    case Done(o) => if o.Published? { EarnedLater(s, past, e, j, p, p, cache[p.key]); }
    case _ =>
  }

  /** An event that names no process changes nothing. */
  lemma IdleEarned(s: State, past: Schedule, e: (nat, Choice), r: State)
    requires AllEarned(s, past, r)
    ensures AllEarned(s, past + [e], r)
  {
    hide Run, Earned, PcEarned;
    forall j: nat | j < |r.procs|
      ensures PcEarned(s, past + [e], j, r.procs[j], r.cache)
    {
      PcStaysEarned(s, past, e, j, r.procs[j], r.cache);
    }
    forall k | k in r.cache && k !in s.cache
      ensures EntryEarned(s, past + [e], r.procs, k, r.cache[k])
    {
      var j: nat :| j < |r.procs| && r.procs[j].key == k && Earned(s, past, j, r.procs[j], r.cache[k]);
      EarnedLater(s, past, e, j, r.procs[j], r.procs[j], r.cache[k]);
    }
  }

  lemma StartEarned(s: State)
    requires Initial(s)
    ensures AllEarned(s, [], s)
  {
    hide Process.Admitted;
  }

  /**
   Over every run: each entry that was not found at the start is what grounding made of one complete, valid reply
   that a process of that key received; so is the entry of every process that says it published one.
   */
  lemma {:induction false} EntriesAreEarned(s: State, schedule: Schedule)
    requires Initial(s)
    ensures AllEarned(s, schedule, Run(s, schedule))
  {
    hide AllEarned, Step, Initial;
    if schedule == [] {
      StartEarned(s);
    } else {
      var past, e := schedule[..|schedule| - 1], schedule[|schedule| - 1];
      assert schedule == past + [e];
      EntriesAreEarned(s, past);
      if e.0 < |Run(s, past).procs| { StepEarned(s, past, e.0, e.1); } else { IdleEarned(s, past, e, Run(s, past)); }
    }
  }

  // ----- Calls that nothing goes wrong for

  /** No crash and no failure at this step, and its reply would be complete, valid and groundable, in time. */
  ghost predicate Smooth(c: Choice, p: Process) {
    && !c.crash && !c.fails && !c.late && c.stopped && Grounding.ValidReply(c.reply)
    && Grounding.Grounding(c.reply, p.job).Ok? && p.startedAt <= c.now
  }

  ghost predicate AllSmooth(s: State, schedule: Schedule, i: nat)
    requires i < |s.procs|
  {
    forall t: nat :: t < |schedule| && schedule[t].0 == i ==> Smooth(schedule[t].1, s.procs[i])
  }

  /** At its attempt to take the lock, process `i` found it taken. */
  ghost predicate MeetsLock(s: State, schedule: Schedule, i: nat) {
    exists t: nat :: t < |schedule| && schedule[t].0 == i && FindsLock(Run(s, schedule[..t]), i)
  }

  predicate FindsLock(s: State, i: nat) {
    i < |s.procs| && s.procs[i].alive && s.procs[i].pc.Missed? && s.procs[i].key in s.locks
  }

  /** At one of its two looks, before the lock or under it, process `i` found an entry. */
  ghost predicate MeetsEntry(s: State, schedule: Schedule, i: nat) {
    exists t: nat :: t < |schedule| && schedule[t].0 == i && FindsEntry(Run(s, schedule[..t]), i)
  }

  predicate FindsEntry(s: State, i: nat) {
    i < |s.procs| && s.procs[i].alive && (s.procs[i].pc.Start? || s.procs[i].pc.Rechecking?) && s.procs[i].key in s.cache
  }

  lemma MeetsStep(s: State, past: Schedule, e: (nat, Choice), i: nat)
    ensures MeetsLock(s, past + [e], i) <==> MeetsLock(s, past, i) || (e.0 == i && FindsLock(Run(s, past), i))
    ensures MeetsEntry(s, past + [e], i) <==> MeetsEntry(s, past, i) || (e.0 == i && FindsEntry(Run(s, past), i))
  {
    hide Run, FindsLock, FindsEntry;
    var all := past + [e];
    assert all[..|past|] == past && all[|past|] == e;
    assert forall t: nat :: t < |past| ==> all[..t] == past[..t] && all[t] == past[t];
  }

  /** What a process that met a lock or an entry, or neither, is doing, if all went well so far. */
  predicate OnCourse(p: Process, lock: bool, entry: bool) {
    && p.alive
    && match p.pc
       case Start | Missed | SettingUp | Rechecking | Ready | Calling => !lock && !entry
       case Reading(_) => !lock && entry
       case Replied(reply, stopped) => !lock && !entry && stopped && Grounding.Grounding(reply, p.job).Ok?
       case Linking(_) => !lock && !entry
       case Releasing(outcome) => Due(outcome, lock, entry)
       case Done(outcome) => Due(outcome, lock, entry)
       case Leaking => false
  }

  predicate Due(outcome: Outcome, lock: bool, entry: bool) {
    match outcome
    case Busy => lock && !entry
    case Reused | Conflict => entry && !lock
    case Published => !lock && !entry
    case Failure => false
  }

  lemma SmoothStep(s: State, i: nat, c: Choice, lock: bool, entry: bool)
    requires i < |s.procs| && OnCourse(s.procs[i], lock, entry) && Smooth(c, s.procs[i])
    requires s.procs[i].pc.Linking? ==> s.procs[i].key !in s.cache
    ensures i < |Step(s, i, c).procs|
    ensures OnCourse(Step(s, i, c).procs[i], lock || FindsLock(s, i), entry || FindsEntry(s, i))
  {
    hide ReadCached, Grounding.ValidReply;
  }

  lemma StillAbsent(s: State, i: nat)
    requires Inv(s) && i < |s.procs| && s.procs[i].pc.Linking?
    ensures s.procs[i].key !in s.cache
  {
    assert ProcessSound(s, s.procs[i]);
  }

  lemma {:induction false} SmoothRun(s: State, schedule: Schedule, i: nat)
    requires Initial(s) && i < |s.procs| && s.procs[i].alive && AllSmooth(s, schedule, i)
    ensures i < |Run(s, schedule).procs|
    ensures var p := Run(s, schedule).procs[i];
      && p.key == s.procs[i].key && p.job == s.procs[i].job && p.startedAt == s.procs[i].startedAt
      && OnCourse(p, MeetsLock(s, schedule, i), MeetsEntry(s, schedule, i))
  {
    if schedule != [] {
      hide Initial, Step, Inv, OnCourse, MeetsLock, MeetsEntry, Smooth, FindsLock, FindsEntry;
      var past, e := schedule[..|schedule| - 1], schedule[|schedule| - 1];
      assert schedule == past + [e];
      assert forall t: nat :: t < |past| ==> past[t] == schedule[t];
      SmoothRun(s, past, i);
      MeetsStep(s, past, e, i);
      var r := Run(s, past);
      if e.0 < |r.procs| {
        StepKeepsIdentity(r, e.0, e.1);
        RunKeepsInv(s, past);
        if e.0 == i {
          if r.procs[i].pc.Linking? { StillAbsent(r, i); }
          SameSmooth(e.1, s.procs[i], r.procs[i]);
          SmoothStep(r, i, e.1, MeetsLock(s, past, i), MeetsEntry(s, past, i));
        }
      }
    }
  }

  lemma SameSmooth(c: Choice, p: Process, q: Process)
    requires Smooth(c, p) && q.job == p.job && q.startedAt == p.startedAt
    ensures Smooth(c, q)
  {
  }

  /**
   A call for which nothing goes wrong ends busy if it met the lock, with the found entry or a conflict if it met an
   entry, and otherwise with the entry made from the reply it received published - never as a failure.
   */
  lemma SmoothCallEnds(s: State, schedule: Schedule, i: nat)
    requires Initial(s) && i < |s.procs| && s.procs[i].alive && AllSmooth(s, schedule, i)
    ensures i < |Run(s, schedule).procs|
    ensures var r, p := Run(s, schedule), Run(s, schedule).procs[i];
      p.pc.Done? ==>
        && (p.pc.outcome == Busy <==> MeetsLock(s, schedule, i))
        && (p.pc.outcome == Reused || p.pc.outcome == Conflict <==> MeetsEntry(s, schedule, i))
        && (p.pc.outcome == Published <==> !MeetsLock(s, schedule, i) && !MeetsEntry(s, schedule, i))
        && (p.pc.outcome == Published ==> p.key in r.cache && Earned(s, schedule, i, p, r.cache[p.key]))
  {
    SmoothRun(s, schedule, i);
    EntriesAreEarned(s, schedule);
    assert PcEarned(s, schedule, i, Run(s, schedule).procs[i], Run(s, schedule).cache);
    hide Run, MeetsLock, MeetsEntry, Earned, Initial, AllSmooth;
  }

  // ----- Calls that something goes wrong for

  predicate Failing(pc: Pc) { pc == Releasing(Failure) || pc == Done(Failure) }

  /** A step under the lock that fails, or an incomplete reply, is the end of the call whatever follows. */
  predicate GoesWrong(p: Process, c: Choice) {
    && p.alive && !c.crash
    && match p.pc
       case Rechecking | Ready | Reading(true) => c.fails
       case Calling => c.fails || !Grounding.ValidReply(c.reply)
       case Replied(reply, stopped) => c.fails || !stopped || Grounding.Grounding(reply, p.job).Err?
       case Linking(_) => c.fails || c.late
       case _ => false
  }

  lemma WrongStep(s: State, i: nat, c: Choice)
    requires i < |s.procs| && GoesWrong(s.procs[i], c)
    ensures i < |Step(s, i, c).procs| && Failing(Step(s, i, c).procs[i].pc)
  {
    hide ReadCached, Grounding.ValidReply;
  }

  lemma FailingStays(s: State, i: nat, j: nat, c: Choice)
    requires i < |s.procs| && j < |s.procs| && Failing(s.procs[i].pc)
    ensures i < |Step(s, j, c).procs| && Failing(Step(s, j, c).procs[i].pc)
  {
    StepKeepsIdentity(s, j, c);
    hide ReadCached;
  }

  lemma {:induction false} FailureIsFinal(s: State, i: nat, c: Choice, later: Schedule)
    requires i < |s.procs| && GoesWrong(s.procs[i], c)
    ensures i < |Run(Step(s, i, c), later).procs| && Failing(Run(Step(s, i, c), later).procs[i].pc)
  {
    hide Step, GoesWrong, Failing;
    if later == [] {
      WrongStep(s, i, c);
    } else {
      var e := later[|later| - 1];
      FailureIsFinal(s, i, c, later[..|later| - 1]);
      var before := Run(Step(s, i, c), later[..|later| - 1]);
      if e.0 < |before.procs| { FailingStays(before, i, e.0, e.1); }
    }
  }

  /** A failure while setting up is outside the protected part: the lock stays, and nobody will ever remove it. */
  lemma FailedSetUpAbandons(s: State, schedule: Schedule, i: nat, c: Choice)
    requires Initial(s) && i < |s.procs|
    requires i < |Run(s, schedule).procs| && Run(s, schedule).procs[i].alive && Run(s, schedule).procs[i].pc.SettingUp?
    requires !c.crash && c.fails
    ensures Abandoned(Step(Run(s, schedule), i, c), Run(s, schedule).procs[i].key)
  {
    var longer := schedule + [(i, c)];
    assert longer[..|longer| - 1] == schedule;
    CrashedHolderAbandons(s, longer, i);
    hide Run, Abandoned, ReadCached;
  }

  // ----- One call alone

  function Alone(i: nat, c: Choice, steps: nat): Schedule {
    if steps == 0 then [] else Alone(i, c, steps - 1) + [(i, c)]
  }

  /** Where a lone call stands after `k` steps. */
  predicate LoneAt(s: State, i: nat, c: Choice, entry: Entry, k: nat, r: State)
    requires i < |s.procs|
  {
    var p := s.procs[i];
    var pc := match k
      case 0 => Start case 1 => Missed case 2 => SettingUp case 3 => Rechecking case 4 => Ready case 5 => Calling
      case 6 => Replied(c.reply, true) case 7 => Linking(entry) case 8 => Releasing(Published) case _ => Done(Published);
    && |r.procs| == |s.procs| && r.procs[i] == p.(pc := pc)
    && r.locks == (if 2 <= k <= 8 then s.locks + {p.key} else s.locks)
    && r.cache == (if k >= 8 then s.cache[p.key := entry] else s.cache)
  }

  lemma LoneShared(s: State, i: nat, c: Choice, entry: Entry, k: nat, r: State)
    requires i < |s.procs| && s.procs[i].alive && Smooth(c, s.procs[i]) && (k == 1 || k == 7 || k == 8)
    requires s.procs[i].key !in s.locks && s.procs[i].key !in s.cache && LoneAt(s, i, c, entry, k, r)
    ensures LoneAt(s, i, c, entry, k + 1, Step(r, i, c))
  {
    hide Local, ReadCached, Grounding.ValidReply;
  }

  lemma LoneLocal(s: State, i: nat, c: Choice, entry: Entry, k: nat, r: State)
    requires i < |s.procs| && s.procs[i].alive && Smooth(c, s.procs[i]) && k < 7 && k != 1
    requires s.procs[i].key !in s.locks && s.procs[i].key !in s.cache && LoneAt(s, i, c, entry, k, r)
    requires FinishedEntry(s.procs[i], c.reply, c.now) == Some(entry)
    ensures LoneAt(s, i, c, entry, k + 1, Step(r, i, c))
  {
    var p, q := s.procs[i], r.procs[i];
    assert FinishedRun(q, c.now) == FinishedRun(p, c.now) && FinishedEntry(q, c.reply, c.now) == Some(entry);
    hide FinishedEntry, FinishedRun, ReadCached, Grounding.ValidReply, Step;
    LocalStep(r, i, c);
    assert Step(r, i, c).locks == r.locks && Step(r, i, c).cache == r.cache by { LocalKeepsShared(r, i, c); }
  }

  lemma LocalKeepsShared(s: State, i: nat, c: Choice)
    requires i < |s.procs| && !s.procs[i].pc.Missed? && !s.procs[i].pc.Linking? && !s.procs[i].pc.Releasing?
    ensures Step(s, i, c).locks == s.locks && Step(s, i, c).cache == s.cache
  {
    hide Local;
  }

  lemma LoneStep(s: State, i: nat, c: Choice, entry: Entry, k: nat, r: State)
    requires i < |s.procs| && s.procs[i].alive && Smooth(c, s.procs[i]) && k < 9
    requires s.procs[i].key !in s.locks && s.procs[i].key !in s.cache
    requires FinishedEntry(s.procs[i], c.reply, c.now) == Some(entry) && LoneAt(s, i, c, entry, k, r)
    ensures LoneAt(s, i, c, entry, k + 1, Step(r, i, c))
  {
    hide Step, LoneAt, Smooth, FinishedEntry;
    if k == 1 || k == 7 || k == 8 { LoneShared(s, i, c, entry, k, r); } else { LoneLocal(s, i, c, entry, k, r); }
  }

  lemma {:induction false} LoneRun(s: State, i: nat, c: Choice, entry: Entry, k: nat)
    requires i < |s.procs| && s.procs[i].alive && s.procs[i].pc.Start? && Smooth(c, s.procs[i]) && k <= 9
    requires s.procs[i].key !in s.locks && s.procs[i].key !in s.cache
    requires FinishedEntry(s.procs[i], c.reply, c.now) == Some(entry)
    ensures LoneAt(s, i, c, entry, k, Run(s, Alone(i, c, k)))
  {
    hide Step, Smooth, FinishedEntry;
    if k > 0 {
      LoneRun(s, i, c, entry, k - 1);
      LoneStep(s, i, c, entry, k - 1, Run(s, Alone(i, c, k - 1)));
      assert Alone(i, c, k)[..|Alone(i, c, k)| - 1] == Alone(i, c, k - 1);
      hide LoneAt;
    }
  }

  /** Alone, with no lock and no entry in its way, a smooth call is through after nine steps, and publishes. */
  lemma LoneCallPublishes(s: State, i: nat, c: Choice)
    requires i < |s.procs| && s.procs[i].alive && s.procs[i].pc.Start? && Smooth(c, s.procs[i])
    requires s.procs[i].key !in s.locks && s.procs[i].key !in s.cache
    ensures var r := Run(s, Alone(i, c, 9));
      && i < |r.procs| && r.procs[i].pc == Done(Published) && r.locks == s.locks
      && s.procs[i].key in r.cache && MadeFrom(r.cache[s.procs[i].key], s.procs[i], c.reply)
  {
    var entry := FinishedEntry(s.procs[i], c.reply, c.now);
    assert entry.Some?;
    LoneRun(s, i, c, entry.value, 9);
    FinishedIsMade(s.procs[i], c.reply, c.now);
    hide Run, Smooth, FinishedEntry, MadeFrom;
  }
}
