/**
 How many attempts, failures and claims a job has in a run. The attempts of a row are written from the copy
 its worker holds, so they count the recorded failures exactly as long as every such copy was up to date.
 */
module JobCounts {
  import opened Wrappers
  import Text
  import opened Timestamps
  import opened Jobs
  import opened JobRuns

  function Bound(policy: RetryPolicy): nat { AtLeastOne(policy.maxAttempts) }

  function AtLeastOne(limit: int): nat { if limit < 1 then 1 else limit }

  /** If the event records a failure of `id`, then with a copy whose attempts are the row's. */
  ghost predicate FreshIfRecorded(policy: RetryPolicy, s: State, e: Event, id: JobId) {
    Records(policy, s, e, id) ==> HoldsFresh(s, e.worker)
  }

  /** Every failure of `id` that the run recorded was made with such a copy. */
  ghost predicate AllFresh(policy: RetryPolicy, events: seq<Event>, id: JobId) {
    forall k :: 0 <= k < |events| ==> FreshIfRecorded(policy, Run(policy, events[..k]), events[k], id)
  }

  lemma AllFreshStep(policy: RetryPolicy, events: seq<Event>, id: JobId)
    requires events != []
    ensures var front, last := events[..|events| - 1], events[|events| - 1];
      AllFresh(policy, events, id) <==> AllFresh(policy, front, id) && FreshIfRecorded(policy, Run(policy, front), last, id)
  {
    hide Run, FreshIfRecorded;
    var front := events[..|events| - 1];
    assert forall k :: 0 <= k < |front| ==> front[..k] == events[..k] && front[k] == events[k];
  }

  // ----- The tally of one job

  /** One less than the failures once a stale copy has been written back. */
  function Ceiling(failures: nat, upToDate: bool): int { if upToDate then failures else failures - 1 }

  predicate Active(job: Job) { job.status.Running? || job.status.Succeeded? }

  ghost predicate RowTally(policy: RetryPolicy, job: Job, claims: nat, failures: nat, upToDate: bool) {
    && job.attempts <= Ceiling(failures, upToDate) && (upToDate ==> job.attempts == failures)
    && claims == failures + (if Active(job) then 1 else 0)
    && (job.status.Pending? ==> failures == 0)
    && (job.status.InRetry? ==> job.attempts < policy.maxAttempts)
    && (Active(job) ==> job.attempts < Bound(policy))
    && job.attempts <= Bound(policy)
  }

  predicate CopyTally(policy: RetryPolicy, h: Held, id: JobId, ceiling: int) {
    h.id == id ==> h.copy.attempts <= ceiling && h.copy.attempts < Bound(policy)
  }

  ghost predicate CopiesTally(policy: RetryPolicy, s: State, id: JobId, ceiling: int) {
    && (forall w :: w in s.held ==> CopyTally(policy, s.held[w], id, ceiling))
    && (forall w :: w in s.reading ==> CopyTally(policy, s.reading[w], id, ceiling))
  }

  ghost predicate Tally(policy: RetryPolicy, s: State, id: JobId, upToDate: bool) {
    if id !in s.jobs then CountOf(s.claims, id) == 0 && CountOf(s.failures, id) == 0 && upToDate
    else
      && RowTally(policy, s.jobs[id], CountOf(s.claims, id), CountOf(s.failures, id), upToDate)
      && CopiesTally(policy, s, id, Ceiling(CountOf(s.failures, id), upToDate))
  }

  lemma EnqueueKeepsTally(policy: RetryPolicy, s: State, added: JobId, job: Job, id: JobId, upToDate: bool)
    requires Exclusive(s) && Tally(policy, s, id, upToDate)
    ensures Tally(policy, Enqueued(s, added, job), id, upToDate)
  {
    hide ValidJobs;
  }

  lemma GrantKeepsTally(policy: RetryPolicy, s: State, w: Worker, h: Held, id: JobId, upToDate: bool)
    requires Exclusive(s) && Tally(policy, s, id, upToDate) && h.id in s.jobs && s.jobs[h.id].Waiting()
    requires CopyTally(policy, h, id, Ceiling(CountOf(s.failures, id), upToDate))
    ensures Tally(policy, Granted(s, w, h), id, upToDate)
  {
    hide ValidJobs;
  }

  /** The copy a query hands out has the row's attempts, and a waiting row is below the limit. */
  lemma WaitingCopyTally(policy: RetryPolicy, s: State, from: JobId, id: JobId, upToDate: bool)
    requires Tally(policy, s, id, upToDate) && from in s.jobs && s.jobs[from].Waiting()
    ensures CopyTally(policy, Held(from, s.jobs[from].(status := Running)), id, Ceiling(CountOf(s.failures, id), upToDate))
  {
  }

  lemma ClaimKeepsTally(policy: RetryPolicy, s: State, w: Worker, from: JobId, now: Instant, id: JobId, upToDate: bool)
    requires Exclusive(s) && Tally(policy, s, id, upToDate)
    ensures Tally(policy, AfterClaim(s, w, from, now), id, upToDate)
    ensures Tally(policy, AfterRead(s, w, from, now), id, upToDate)
  {
    hide IsoFormat, Text.StrLess, Granted, RowTally, ValidJobs;
    if Idle(s, w) && now.Valid() && FirstDue(s.jobs, from, now) {
      WaitingCopyTally(policy, s, from, id, upToDate);
      GrantKeepsTally(policy, s, w, Held(from, s.jobs[from].(status := Running)), id, upToDate);
    }
  }

  lemma UpdateKeepsTally(policy: RetryPolicy, s: State, w: Worker, id: JobId, upToDate: bool)
    requires Exclusive(s) && Tally(policy, s, id, upToDate)
    ensures Tally(policy, AfterUpdate(s, w), id, upToDate)
  {
    hide ValidJobs, Granted, RowTally;
    if w in s.reading {
      var h, rest := s.reading[w], s.(reading := s.reading - {w});
      assert Exclusive(rest) && Tally(policy, rest, id, upToDate);
      if h.id in s.jobs && s.jobs[h.id].Waiting() { GrantKeepsTally(policy, rest, w, h, id, upToDate); }
    }
  }

  lemma SuccessKeepsTally(policy: RetryPolicy, s: State, w: Worker, id: JobId, upToDate: bool)
    requires Exclusive(s) && Tally(policy, s, id, upToDate)
    ensures Tally(policy, AfterSuccess(s, w), id, upToDate)
  {
    hide ValidJobs;
  }

  /** A failure made with a stale copy writes back at most what the failures before it counted. */
  lemma FailureKeepsTally(policy: RetryPolicy, s: State, e: Event, id: JobId, upToDate: bool)
    requires Exclusive(s) && Tally(policy, s, id, upToDate) && e.MarkFailed?
    ensures Tally(policy, Step(policy, s, e), id, upToDate && FreshIfRecorded(policy, s, e, id))
  {
    hide Fail, ValidJobs;
    if e.worker in s.held && e.now.Valid() {
      var h := s.held[e.worker];
      if Fail(s.jobs, h.id, h.copy, e.code, e.message, policy, e.now).Ok? {
        FailedShape(policy, s.jobs, h, e.code, e.message, e.now);
      }
    }
  }

  lemma StepKeepsTally(policy: RetryPolicy, s: State, e: Event, id: JobId, upToDate: bool)
    requires Exclusive(s) && Tally(policy, s, id, upToDate)
    ensures Tally(policy, Step(policy, s, e), id, upToDate && FreshIfRecorded(policy, s, e, id))
  {
    hide Tally, Exclusive, HoldsFresh, Fail, Enqueued, AfterClaim, AfterRead, AfterUpdate, AfterSuccess, AfterFailure;
    match e
    case Enqueue(added, kind, identity, payload, maxAttempts, now) =>
      EnqueueKeepsTally(policy, s, added, Job(kind, identity, payload, Pending, 0, maxAttempts, None, None, now), id, upToDate);
    case Claim(w, from, now) => ClaimKeepsTally(policy, s, w, from, now, id, upToDate);
    case ClaimRead(w, from, now) => ClaimKeepsTally(policy, s, w, from, now, id, upToDate);
    case ClaimUpdate(w) => UpdateKeepsTally(policy, s, w, id, upToDate);
    case MarkSucceeded(w) => SuccessKeepsTally(policy, s, w, id, upToDate);
    case MarkFailed(_, _, _, _) => FailureKeepsTally(policy, s, e, id, upToDate);
  }

  lemma {:induction false} RunTally(policy: RetryPolicy, events: seq<Event>, id: JobId)
    ensures Tally(policy, Run(policy, events), id, AllFresh(policy, events, id))
  {
    if events == [] {
      assert AllFresh(policy, [], id);
    } else {
      hide Tally, Step, AllFresh, FreshIfRecorded, Exclusive;
      var last := |events| - 1;
      RunTally(policy, events[..last], id);
      AllFreshStep(policy, events, id);
      StepKeepsTally(policy, Run(policy, events[..last]), events[last], id, AllFresh(policy, events[..last], id));
    }
  }

  /**
   In every run, claims split or not: attempts is the number of recorded failures exactly when every one of
   them was made with an up-to-date copy, and is less otherwise. Each claim granted has failed, or its job is
   running or finished. A job waiting for a retry is below the policy's limit whatever the copies were.
   */
  lemma AttemptsAreFailuresIff(policy: RetryPolicy, events: seq<Event>, id: JobId)
    requires id in Run(policy, events).jobs
    ensures var s := Run(policy, events);
      && (s.jobs[id].attempts == CountOf(s.failures, id) <==> AllFresh(policy, events, id))
      && s.jobs[id].attempts <= CountOf(s.failures, id)
      && CountOf(s.claims, id) == CountOf(s.failures, id) + (if Active(s.jobs[id]) then 1 else 0)
      && (s.jobs[id].status.InRetry? ==> s.jobs[id].attempts < policy.maxAttempts)
      && s.jobs[id].attempts <= Bound(policy)
  {
    RunTally(policy, events, id);
    hide AllFresh, Run, CopiesTally;
  }

  /** With up-to-date copies no job is claimed more often than the policy allows (once, if it allows less than one). */
  lemma FreshClaimsBounded(policy: RetryPolicy, events: seq<Event>, id: JobId)
    requires AllFresh(policy, events, id)
    ensures CountOf(Run(policy, events).claims, id) <= Bound(policy)
  {
    RunTally(policy, events, id);
    hide AllFresh, Run, CopiesTally;
  }

  // ----- Claims that are one transaction

  predicate Atomic(e: Event) { !e.ClaimRead? && !e.ClaimUpdate? }

  predicate AllAtomic(events: seq<Event>) { forall i :: 0 <= i < |events| ==> Atomic(events[i]) }

  /** No claim is half done, and every held copy has its row's attempts. */
  ghost predicate CopiesCurrent(s: State) { s.reading == map[] && forall w :: w in s.held ==> HoldsFresh(s, w) }

  lemma StepKeepsCurrent(policy: RetryPolicy, s: State, e: Event)
    requires Exclusive(s) && CopiesCurrent(s) && Atomic(e)
    ensures CopiesCurrent(Step(policy, s, e))
  {
    hide ValidJobs, Fail, Due, IsoFormat;
    if e.MarkFailed? && e.worker in s.held && e.now.Valid() {
      var h := s.held[e.worker];
      if Fail(s.jobs, h.id, h.copy, e.code, e.message, policy, e.now).Ok? {
        FailedShape(policy, s.jobs, h, e.code, e.message, e.now);
      }
    }
  }

  lemma {:induction false} AtomicIsFresh(policy: RetryPolicy, events: seq<Event>, id: JobId)
    requires AllAtomic(events)
    ensures CopiesCurrent(Run(policy, events)) && AllFresh(policy, events, id)
  {
    if events != [] {
      hide Step, AllFresh, Exclusive, FreshIfRecorded, CopiesCurrent;
      var last := |events| - 1;
      AtomicIsFresh(policy, events[..last], id);
      AllFreshStep(policy, events, id);
      StepKeepsCurrent(policy, Run(policy, events[..last]), events[last]);
      HeldIsFresh(policy, Run(policy, events[..last]), events[last], id);
    }
  }

  lemma HeldIsFresh(policy: RetryPolicy, s: State, e: Event, id: JobId)
    requires CopiesCurrent(s)
    ensures FreshIfRecorded(policy, s, e, id)
  {
    hide Fail, HoldsFresh;
  }

  /**
   With one-transaction claims: attempts is the number of recorded failures, a job waiting for a retry is
   below the policy's limit, and no job is claimed more often than the limit (once, if the limit is below one).
   */
  lemma AttemptsAreFailures(policy: RetryPolicy, events: seq<Event>, id: JobId)
    requires AllAtomic(events) && id in Run(policy, events).jobs
    ensures var s := Run(policy, events);
      && s.jobs[id].attempts == CountOf(s.failures, id)
      && (s.jobs[id].status.InRetry? ==> s.jobs[id].attempts < policy.maxAttempts)
      && CountOf(s.claims, id) <= Bound(policy)
  {
    AtomicIsFresh(policy, events, id);
    AttemptsAreFailuresIff(policy, events, id);
    FreshClaimsBounded(policy, events, id);
    hide Run, AllFresh;
  }
}
