/**
 Claims whose read and guarded update are two transactions, with anything in between: when the update grants
 an up-to-date copy, and when what it grants was due.
 */
module SplitClaims {
  import opened Timestamps
  import opened Jobs
  import opened JobRuns
  import opened JobCounts

  // ----- Where a read comes from

  /** Event `i` is the read, by an idle worker, that handed out `h`. */
  ghost predicate ReadBy(policy: RetryPolicy, events: seq<Event>, i: nat, w: Worker, h: Held) {
    && i < |events| && events[i].ClaimRead? && events[i].worker == w && events[i].id == h.id && events[i].now.Valid()
    && var s := Run(policy, events[..i]);
    && Idle(s, w) && FirstDue(s.jobs, h.id, events[i].now) && h == Held(h.id, s.jobs[h.id].(status := Running))
  }

  /** Since event `i` the worker has not updated. */
  ghost predicate StillReading(policy: RetryPolicy, events: seq<Event>, i: nat, w: Worker, h: Held) {
    forall k :: i < k <= |events| ==> w in Run(policy, events[..k]).reading && Run(policy, events[..k]).reading[w] == h
  }

  lemma StepKeepsReading(policy: RetryPolicy, s: State, e: Event, w: Worker)
    requires Exclusive(s) && w in Step(policy, s, e).reading
    ensures w in s.reading ==> Step(policy, s, e).reading[w] == s.reading[w]
    ensures w !in s.reading ==>
      && e.ClaimRead? && e.worker == w && e.now.Valid() && Idle(s, w) && FirstDue(s.jobs, e.id, e.now)
      && Step(policy, s, e).reading[w] == Held(e.id, s.jobs[e.id].(status := Running))
  {
    hide ValidJobs, Due, IsoFormat, Fail, Claimed, Succeed;
  }

  /** Every outstanding read has its event. */
  lemma {:induction false} ReadOf(policy: RetryPolicy, events: seq<Event>, w: Worker) returns (i: nat)
    requires w in Run(policy, events).reading
    ensures ReadBy(policy, events, i, w, Run(policy, events).reading[w])
    ensures StillReading(policy, events, i, w, Run(policy, events).reading[w])
  {
    hide Step, Exclusive, ReadBy, StillReading;
    NotAtFirst(policy, events, w);
    var last := |events| - 1;
    var front, s := events[..last], Run(policy, events[..last]);
    hide Run;
    RunUnfolds(policy, events);
    StepKeepsReading(policy, s, events[last], w);
    if w in s.reading {
      i := ReadOf(policy, front, w);
      ReadByLater(policy, events, i, w, s.reading[w]);
      StillReadingStep(policy, events, i, w, s.reading[w]);
    } else {
      i := last;
      ReadNow(policy, events, w);
    }
  }

  lemma NotAtFirst(policy: RetryPolicy, events: seq<Event>, w: Worker)
    requires w in Run(policy, events).reading
    ensures events != []
  {
  }

  lemma ReadByLater(policy: RetryPolicy, events: seq<Event>, i: nat, w: Worker, h: Held)
    requires events != [] && ReadBy(policy, events[..|events| - 1], i, w, h)
    ensures ReadBy(policy, events, i, w, h)
  {
    hide Run, FirstDue;
    var front := events[..|events| - 1];
    assert front[..i] == events[..i] && front[i] == events[i];
  }

  lemma ReadNow(policy: RetryPolicy, events: seq<Event>, w: Worker)
    requires events != [] && w in Run(policy, events).reading && w !in Run(policy, events[..|events| - 1]).reading
    ensures ReadBy(policy, events, |events| - 1, w, Run(policy, events).reading[w])
    ensures StillReading(policy, events, |events| - 1, w, Run(policy, events).reading[w])
  {
    hide Run, Step, FirstDue, Exclusive, StillReading, Idle;
    RunUnfolds(policy, events);
    StepKeepsReading(policy, Run(policy, events[..|events| - 1]), events[|events| - 1], w);
    JustRead(policy, events, w);
  }

  lemma JustRead(policy: RetryPolicy, events: seq<Event>, w: Worker)
    requires events != [] && w in Run(policy, events).reading
    ensures StillReading(policy, events, |events| - 1, w, Run(policy, events).reading[w])
  {
    hide Run;
    assert events[..|events|] == events;
  }

  lemma RunUnfolds(policy: RetryPolicy, events: seq<Event>)
    requires events != []
    ensures var s := Run(policy, events[..|events| - 1]);
      Exclusive(s) && Run(policy, events) == Step(policy, s, events[|events| - 1])
  {
  }

  lemma StillReadingStep(policy: RetryPolicy, events: seq<Event>, i: nat, w: Worker, h: Held)
    requires events != [] && StillReading(policy, events[..|events| - 1], i, w, h)
    requires w in Run(policy, events).reading && Run(policy, events).reading[w] == h
    ensures StillReading(policy, events, i, w, h)
  {
    hide Run;
    var front := events[..|events| - 1];
    forall k | i < k <= |events|
      ensures w in Run(policy, events[..k]).reading && Run(policy, events[..k]).reading[w] == h
    {
      if k <= |front| { assert front[..k] == events[..k]; } else { assert events[..k] == events; }
    }
  }

  // ----- What happens to a row between two moments

  /** No failure of `id` is recorded from event `i` on. */
  ghost predicate NoFailureSince(policy: RetryPolicy, events: seq<Event>, i: nat, id: JobId) {
    forall k :: i <= k < |events| ==> !Records(policy, Run(policy, events[..k]), events[k], id)
  }

  lemma NoFailureStep(policy: RetryPolicy, events: seq<Event>, i: nat, id: JobId)
    requires i < |events|
    ensures var front, last := events[..|events| - 1], events[|events| - 1];
      NoFailureSince(policy, events, i, id) <==> NoFailureSince(policy, front, i, id) && !Records(policy, Run(policy, front), last, id)
  {
    hide Run, Records;
    var front := events[..|events| - 1];
    assert forall k :: 0 <= k < |front| ==> front[..k] == events[..k] && front[k] == events[k];
  }

  /** The same row in all that a claim hands out or looks at, its status apart. */
  predicate SameRow(a: Job, b: Job) {
    a.attempts == b.attempts && a.nextRetryAt == b.nextRetryAt && a.createdAt == b.createdAt
  }

  lemma StepKeepsRow(policy: RetryPolicy, s: State, e: Event, id: JobId)
    requires Exclusive(s) && id in s.jobs
    ensures id in Step(policy, s, e).jobs
    ensures !Records(policy, s, e, id) ==> SameRow(s.jobs[id], Step(policy, s, e).jobs[id])
  {
    hide ValidJobs, Due, IsoFormat, Fail;
    if e.MarkFailed? && e.worker in s.held && e.now.Valid() {
      var h := s.held[e.worker];
      if Fail(s.jobs, h.id, h.copy, e.code, e.message, policy, e.now).Ok? {
        FailedShape(policy, s.jobs, h, e.code, e.message, e.now);
      }
    }
  }

  lemma StepCounts(policy: RetryPolicy, s: State, e: Event, id: JobId)
    requires Exclusive(s)
    ensures CountOf(Step(policy, s, e).failures, id) == CountOf(s.failures, id) + if Records(policy, s, e, id) then 1 else 0
  {
    hide ValidJobs, FirstDue, Fail, Claimed, Succeed;
  }

  /** From `s` to a later `t` in which job `id` is quiet exactly if none of its failures was recorded in between. */
  ghost predicate Since(s: State, t: State, id: JobId, quiet: bool) {
    && id in s.jobs && id in t.jobs
    && (quiet ==> SameRow(s.jobs[id], t.jobs[id]))
    && CountOf(s.failures, id) <= CountOf(t.failures, id)
    && (quiet <==> CountOf(s.failures, id) == CountOf(t.failures, id))
  }

  lemma SinceStep(policy: RetryPolicy, s: State, t: State, e: Event, id: JobId, quiet: bool)
    requires Exclusive(t) && Since(s, t, id, quiet)
    ensures Since(s, Step(policy, t, e), id, quiet && !Records(policy, t, e, id))
  {
    StepKeepsRow(policy, t, e, id);
    StepCounts(policy, t, e, id);
    hide Step, Records, Exclusive;
  }

  lemma SinceSelf(s: State, id: JobId)
    requires id in s.jobs
    ensures Since(s, s, id, true)
  {
  }

  /** Without a failure a row keeps what a claim looks at; each failure in between is counted. */
  lemma {:induction false} RowSince(policy: RetryPolicy, events: seq<Event>, i: nat, id: JobId)
    requires i <= |events| && id in Run(policy, events[..i]).jobs
    ensures Since(Run(policy, events[..i]), Run(policy, events), id, NoFailureSince(policy, events, i, id))
    decreases |events|
  {
    hide Run, Step, NoFailureSince, Records, Exclusive, Since;
    if i == |events| {
      assert events[..i] == events;
      SinceSelf(Run(policy, events), id);
      NothingSince(policy, events, id);
    } else {
      var last := |events| - 1;
      assert events[..last][..i] == events[..i];
      RunUnfolds(policy, events);
      RowSince(policy, events[..last], i, id);
      NoFailureStep(policy, events, i, id);
      SinceStep(policy, Run(policy, events[..i]), Run(policy, events[..last]), events[last], id,
                NoFailureSince(policy, events[..last], i, id));
    }
  }

  lemma NothingSince(policy: RetryPolicy, events: seq<Event>, id: JobId)
    ensures NoFailureSince(policy, events, |events|, id)
  {
  }

  // ----- Is the granted copy up to date

  /** Event `k` is the last since event `i` to record a failure of `id`. */
  ghost predicate LatestFailure(policy: RetryPolicy, events: seq<Event>, i: nat, k: nat, id: JobId) {
    i <= k < |events| && Records(policy, Run(policy, events[..k]), events[k], id) && NoFailureSince(policy, events, k + 1, id)
  }

  /** The attempts in the copy that the failure at event `k` was recorded with. */
  ghost function CopyAttempts(policy: RetryPolicy, events: seq<Event>, k: nat, id: JobId): nat
    requires k < |events| && Records(policy, Run(policy, events[..k]), events[k], id)
  {
    Run(policy, events[..k]).held[events[k].worker].copy.attempts
  }

  lemma {:induction false} LatestFailureExists(policy: RetryPolicy, events: seq<Event>, i: nat, id: JobId) returns (k: nat)
    requires i <= |events| && !NoFailureSince(policy, events, i, id)
    ensures LatestFailure(policy, events, i, k, id)
    decreases |events| - i
  {
    hide Run, Records;
    k :| i <= k < |events| && Records(policy, Run(policy, events[..k]), events[k], id);
    if !NoFailureSince(policy, events, k + 1, id) {
      k := LatestFailureExists(policy, events, k + 1, id);
    }
  }

  lemma RecordWritesAttempts(policy: RetryPolicy, s: State, e: Event, id: JobId)
    requires Exclusive(s) && Records(policy, s, e, id)
    ensures var t := Step(policy, s, e); id in t.jobs && t.jobs[id].attempts == s.held[e.worker].copy.attempts + 1
  {
    hide ValidJobs, Fail;
    FailedShape(policy, s.jobs, s.held[e.worker], e.code, e.message, e.now);
  }

  /** A row's attempts are what its latest failure wrote: one more than in the copy it was made with. */
  lemma LatestFailureWrote(policy: RetryPolicy, events: seq<Event>, i: nat, k: nat, id: JobId)
    requires LatestFailure(policy, events, i, k, id)
    ensures id in Run(policy, events).jobs
    ensures Run(policy, events).jobs[id].attempts == CopyAttempts(policy, events, k, id) + 1
  {
    var upTo := events[..k + 1];
    assert upTo[..k] == events[..k] && upTo[k] == events[k];
    RunUnfolds(policy, upTo);
    RecordWritesAttempts(policy, Run(policy, events[..k]), events[k], id);
    RowSince(policy, events, k + 1, id);
    hide Run, Step, Records, NoFailureSince;
  }

  /** The latest failure of the job since event `i` happened to write the attempts that `h` has. */
  ghost predicate WroteTheSame(policy: RetryPolicy, events: seq<Event>, i: nat, h: Held) {
    exists k: nat :: LatestFailure(policy, events, i, k, h.id) && CopyAttempts(policy, events, k, h.id) + 1 == h.copy.attempts
  }

  lemma SameAttemptsIff(policy: RetryPolicy, events: seq<Event>, i: nat, h: Held)
    requires i <= |events| && h.id in Run(policy, events[..i]).jobs
    requires h.copy.attempts == Run(policy, events[..i]).jobs[h.id].attempts
    ensures h.id in Run(policy, events).jobs
    ensures h.copy.attempts == Run(policy, events).jobs[h.id].attempts <==>
      NoFailureSince(policy, events, i, h.id) || WroteTheSame(policy, events, i, h)
  {
    hide Run, NoFailureSince, WroteTheSame;
    RowSince(policy, events, i, h.id);
    if !NoFailureSince(policy, events, i, h.id) {
      WroteTheSameIff(policy, events, i, h);
    }
  }

  lemma WroteTheSameIff(policy: RetryPolicy, events: seq<Event>, i: nat, h: Held)
    requires i <= |events| && !NoFailureSince(policy, events, i, h.id)
    ensures h.id in Run(policy, events).jobs
    ensures WroteTheSame(policy, events, i, h) <==> h.copy.attempts == Run(policy, events).jobs[h.id].attempts
  {
    hide Run, Records, NoFailureSince;
    var latest := LatestFailureExists(policy, events, i, h.id);
    LatestFailureWrote(policy, events, i, latest, h.id);
    if WroteTheSame(policy, events, i, h) {
      var k: nat :| LatestFailure(policy, events, i, k, h.id) && CopyAttempts(policy, events, k, h.id) + 1 == h.copy.attempts;
      LatestFailureWrote(policy, events, i, k, h.id);
    }
  }

  /**
   The copy an update is about to grant has the row's attempts exactly if no failure of the job was recorded
   since its read, or the latest one since was made with a copy of one attempt less. The latter takes a stale
   copy: as long as all failures were made with up-to-date ones, it is the former alone.
   */
  lemma GrantedCopyFreshIff(policy: RetryPolicy, events: seq<Event>, w: Worker) returns (i: nat)
    requires w in Run(policy, events).reading
    ensures var s, h := Run(policy, events), Run(policy, events).reading[w];
      && ReadBy(policy, events, i, w, h) && StillReading(policy, events, i, w, h) && h.id in s.jobs
      && (h.copy.attempts == s.jobs[h.id].attempts <==>
            NoFailureSince(policy, events, i, h.id) || WroteTheSame(policy, events, i, h))
      && (AllFresh(policy, events, h.id) ==>
            (h.copy.attempts == s.jobs[h.id].attempts <==> NoFailureSince(policy, events, i, h.id)))
  {
    i := ReadOf(policy, events, w);
    var h := Run(policy, events).reading[w];
    hide FirstDue, StillReading, NoFailureSince;
    RowSince(policy, events, i, h.id);
    SameAttemptsIff(policy, events, i, h);
    hide WroteTheSame;
    if AllFresh(policy, events, h.id) {
      FreshPrefix(policy, events, i, h.id);
      hide AllFresh, Run;
      AttemptsAreFailuresIff(policy, events[..i], h.id);
      AttemptsAreFailuresIff(policy, events, h.id);
    }
  }

  lemma FreshPrefix(policy: RetryPolicy, events: seq<Event>, i: nat, id: JobId)
    requires i <= |events| && AllFresh(policy, events, id)
    ensures AllFresh(policy, events[..i], id)
  {
    hide Run, FreshIfRecorded;
    forall k | 0 <= k < i
      ensures FreshIfRecorded(policy, Run(policy, events[..i][..k]), events[..i][k], id)
    {
      assert events[..i][..k] == events[..k];
      assert FreshIfRecorded(policy, Run(policy, events[..k]), events[k], id);
    }
  }

  // ----- Was the granted job due

  /** Clocks that do not run backwards after event `i`: later failures carry no earlier time. */
  ghost predicate ClocksFrom(events: seq<Event>, i: nat)
    requires i < |events| && events[i].ClaimRead? && events[i].now.Valid()
  {
    forall k :: i < k < |events| && events[k].MarkFailed? && events[k].now.Valid() ==>
      Micros(events[i].now) <= Micros(events[k].now)
  }

  /** No claim may have the row at time `t`: it is not waiting without a retry time, and its retry time is later. */
  ghost predicate DueAfter(job: Job, t: int) {
    && job.Valid()
    && (job.nextRetryAt.None? ==> !job.Waiting())
    && (job.nextRetryAt.Some? ==> t < Micros(job.nextRetryAt.value))
  }

  /** A failure recorded at `now` or later schedules the retry after `now`, if there is any delay at all. */
  lemma FailureSchedulesLater(policy: RetryPolicy, jobs: Jobs, h: Held, code: string, message: string, now: Instant)
    requires ValidJobs(jobs) && now.Valid() && h.id in jobs && Fail(jobs, h.id, h.copy, code, message, policy, now).Ok?
    requires 0 < policy.baseDelay && 0 < policy.maxDelay
    ensures var rows := Fail(jobs, h.id, h.copy, code, message, policy, now).value;
      h.id in rows && DueAfter(rows[h.id], Micros(now))
  {
    hide Micros;
    FailKeepsValid(jobs, h.id, h.copy, code, message, policy, now);
    Pow2Grows(h.copy.attempts + 1);
    Positive(policy.baseDelay, Pow2(h.copy.attempts + 1));
    hide ValidJobs, Pow2;
  }

  lemma Positive(a: nat, b: nat)
    requires 0 < a && 0 < b
    ensures 0 < a * b
  {
  }

  lemma StepKeepsDueAfter(policy: RetryPolicy, s: State, e: Event, id: JobId, t: int)
    requires Exclusive(s) && id in s.jobs && 0 < policy.baseDelay && 0 < policy.maxDelay
    requires e.MarkFailed? && e.now.Valid() ==> t <= Micros(e.now)
    requires Records(policy, s, e, id) || DueAfter(s.jobs[id], t)
    ensures id in Step(policy, s, e).jobs && DueAfter(Step(policy, s, e).jobs[id], t)
  {
    StepKeepsRow(policy, s, e, id);
    if Records(policy, s, e, id) {
      FailureSchedulesLater(policy, s.jobs, s.held[e.worker], e.code, e.message, e.now);
    } else {
      StepKeepsExclusive(policy, s, e);
      StepWaits(policy, s, e, id);
    }
    hide Step, Micros, Fail;
  }

  /** Only a recorded failure makes a row wait again. */
  lemma StepWaits(policy: RetryPolicy, s: State, e: Event, id: JobId)
    requires Exclusive(s) && id in s.jobs && !Records(policy, s, e, id)
    ensures id in Step(policy, s, e).jobs
    ensures Step(policy, s, e).jobs[id].Waiting() ==> s.jobs[id].Waiting()
  {
    hide ValidJobs, Due, IsoFormat, Fail;
    if e.MarkFailed? && e.worker in s.held && e.now.Valid() {
      var h := s.held[e.worker];
      if Fail(s.jobs, h.id, h.copy, e.code, e.message, policy, e.now).Ok? {
        FailedShape(policy, s.jobs, h, e.code, e.message, e.now);
      }
    }
  }

  /** No failure from event `i` on carries a time before `t`. */
  ghost predicate FailuresNotBefore(events: seq<Event>, i: nat, t: int) {
    forall k :: i <= k < |events| && events[k].MarkFailed? && events[k].now.Valid() ==> t <= Micros(events[k].now)
  }

  lemma FailuresNotBeforeStep(events: seq<Event>, i: nat, t: int)
    requires i < |events| && FailuresNotBefore(events, i, t)
    ensures var last := events[|events| - 1];
      && FailuresNotBefore(events[..|events| - 1], i, t)
      && (last.MarkFailed? && last.now.Valid() ==> t <= Micros(last.now))
  {
    hide Micros;
  }

  lemma {:induction false} FailureSinceMeansLater(policy: RetryPolicy, events: seq<Event>, i: nat, id: JobId, t: int)
    requires 0 < policy.baseDelay && 0 < policy.maxDelay && i <= |events| && FailuresNotBefore(events, i, t)
    requires id in Run(policy, events[..i]).jobs && !NoFailureSince(policy, events, i, id)
    ensures id in Run(policy, events).jobs && DueAfter(Run(policy, events).jobs[id], t)
    decreases |events|
  {
    hide Run, Step, NoFailureSince, Records, Exclusive, DueAfter, Micros, FailuresNotBefore;
    if i == |events| {
      NothingSince(policy, events, id);
    } else {
      var last := |events| - 1;
      var front, s := events[..last], Run(policy, events[..last]);
      assert front[..i] == events[..i];
      NoFailureStep(policy, events, i, id);
      FailuresNotBeforeStep(events, i, t);
      RunUnfolds(policy, events);
      RowSince(policy, front, i, id);
      if !NoFailureSince(policy, front, i, id) {
        FailureSinceMeansLater(policy, front, i, id, t);
      }
      StepKeepsDueAfter(policy, s, events[last], id, t);
    }
  }

  lemma NoEarlierFailure(events: seq<Event>, i: nat)
    requires i < |events| && events[i].ClaimRead? && events[i].now.Valid() && ClocksFrom(events, i)
    ensures FailuresNotBefore(events, i, Micros(events[i].now))
  {
    hide Micros;
  }

  /**
   What an update grants, with failures that take time and clocks that do not run backwards: the job is due at
   the claim's own time exactly when no failure of it was recorded since the read. It then is also the oldest
   of the jobs that were due at the read; otherwise its retry time lies after the claim's.
   */
  lemma GrantedJobDueIff(policy: RetryPolicy, events: seq<Event>, w: Worker) returns (i: nat)
    requires w in Run(policy, events).reading
    requires var s := Run(policy, events); s.reading[w].id in s.jobs && s.jobs[s.reading[w].id].Waiting()
    ensures var s, h := Run(policy, events), Run(policy, events).reading[w];
      && ReadBy(policy, events, i, w, h) && StillReading(policy, events, i, w, h) && s.jobs[h.id].Valid()
      && var read, now := Run(policy, events[..i]), events[i].now;
      && (NoFailureSince(policy, events, i, h.id) ==>
            && DueInTime(s.jobs[h.id], now)
            && forall j :: j in read.jobs && read.jobs[j].Valid() && DueInTime(read.jobs[j], now) ==>
                Micros(s.jobs[h.id].createdAt) <= Micros(read.jobs[j].createdAt))
      && (0 < policy.baseDelay && 0 < policy.maxDelay && ClocksFrom(events, i) ==>
            && (DueInTime(s.jobs[h.id], now) <==> NoFailureSince(policy, events, i, h.id))
            && (!NoFailureSince(policy, events, i, h.id) ==>
                  s.jobs[h.id].nextRetryAt.Some? && Micros(now) < Micros(s.jobs[h.id].nextRetryAt.value)))
  {
    i := ReadOf(policy, events, w);
    var s, h := Run(policy, events), Run(policy, events).reading[w];
    hide StillReading, NoFailureSince, Micros, ClocksFrom;
    var read, now := Run(policy, events[..i]), events[i].now;
    RowSince(policy, events, i, h.id);
    FirstDueIsOldestInTime(read.jobs, h.id, now);
    ValidJob(s.jobs, h.id);
    if 0 < policy.baseDelay && 0 < policy.maxDelay && ClocksFrom(events, i) && !NoFailureSince(policy, events, i, h.id) {
      NoEarlierFailure(events, i);
      FailureSinceMeansLater(policy, events, i, h.id, Micros(now));
    }
    hide Run, FirstDue, ValidJobs;
  }
}
