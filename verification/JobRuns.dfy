/**
 Runs of many workers over one job store. A claim is either one transaction, or split into its read and
 its guarded update with anything in between. Workers mark only the job they hold; a worker that crashes
 simply never acts again.
 */
module JobRuns {
  import opened Wrappers
  import Text
  import opened Timestamps
  import opened Jobs

  type Worker = nat

  /** A claimed job: its identifier and the copy of its row that the claim returned. */
  datatype Held = Held(id: JobId, copy: Job)

  datatype State = State(
    jobs: Jobs,
    reading: map<Worker, Held>,         // rows read by a claim whose update has not run yet
    held: map<Worker, Held>,
    claims: map<JobId, nat>,            // per job: claims granted and failures recorded so far
    failures: map<JobId, nat>)

  datatype Event =
    | Enqueue(id: JobId, kind: JobKind, identity: string, payload: string, maxAttempts: int, now: Instant)
    | Claim(worker: Worker, id: JobId, now: Instant)
    | ClaimRead(worker: Worker, id: JobId, now: Instant)
    | ClaimUpdate(worker: Worker)
    | MarkSucceeded(worker: Worker)
    | MarkFailed(worker: Worker, code: string, message: string, now: Instant)

  function CountOf(m: map<JobId, nat>, id: JobId): nat { if id in m then m[id] else 0 }

  predicate Idle(s: State, w: Worker) { w !in s.held && w !in s.reading }

  function Granted(s: State, w: Worker, h: Held): State
    requires h.id in s.jobs
  {
    s.(jobs := Claimed(s.jobs, h.id), held := s.held[w := h], claims := s.claims[h.id := CountOf(s.claims, h.id) + 1])
  }

  function Enqueued(s: State, id: JobId, job: Job): State {
    if id in s.jobs || !job.Valid() || !job.status.Pending? || job.attempts != 0
       || (exists j :: j in s.jobs && s.jobs[j].kind == job.kind && s.jobs[j].identity == job.identity)
    then s
    else s.(jobs := s.jobs[id := job])
  }

  ghost function AfterClaim(s: State, w: Worker, id: JobId, now: Instant): State
    requires ValidJobs(s.jobs)
  {
    if !Idle(s, w) || !now.Valid() || !FirstDue(s.jobs, id, now) then s
    else Granted(s, w, Held(id, s.jobs[id].(status := Running)))
  }

  ghost function AfterRead(s: State, w: Worker, id: JobId, now: Instant): State
    requires ValidJobs(s.jobs)
  {
    if !Idle(s, w) || !now.Valid() || !FirstDue(s.jobs, id, now) then s
    else s.(reading := s.reading[w := Held(id, s.jobs[id].(status := Running))])
  }

  function AfterUpdate(s: State, w: Worker): State {
    if w !in s.reading then s
    else
      var h, rest := s.reading[w], s.(reading := s.reading - {w});
      if h.id in s.jobs && s.jobs[h.id].Waiting() then Granted(rest, w, h) else rest
  }

  function AfterSuccess(s: State, w: Worker): State {
    if w !in s.held then s else s.(jobs := Succeed(s.jobs, s.held[w].id), held := s.held - {w})
  }

  function AfterFailure(policy: RetryPolicy, s: State, w: Worker, code: string, message: string, now: Instant): State {
    if w !in s.held || !now.Valid() then s
    else
      var h := s.held[w];
      match Fail(s.jobs, h.id, h.copy, code, message, policy, now)
      case Err(_) => s
      case Ok(jobs) => s.(jobs := jobs, held := s.held - {w}, failures := s.failures[h.id := CountOf(s.failures, h.id) + 1])
  }

  /** One event; an event that cannot happen leaves everything as it is. */
  ghost function Step(policy: RetryPolicy, s: State, e: Event): State
    requires ValidJobs(s.jobs)
  {
    match e
    case Enqueue(id, kind, identity, payload, maxAttempts, now) =>
      Enqueued(s, id, Job(kind, identity, payload, Pending, 0, maxAttempts, None, None, now))
    case Claim(w, id, now) => AfterClaim(s, w, id, now)
    case ClaimRead(w, id, now) => AfterRead(s, w, id, now)
    case ClaimUpdate(w) => AfterUpdate(s, w)
    case MarkSucceeded(w) => AfterSuccess(s, w)
    case MarkFailed(w, code, message, now) => AfterFailure(policy, s, w, code, message, now)
  }

  // ----- Nobody shares a job

  ghost predicate Exclusive(s: State) { ValidJobs(s.jobs) && Ownership(s) }

  ghost predicate Ownership(s: State) {
    && (forall w :: w in s.held ==> s.held[w].id in s.jobs && s.jobs[s.held[w].id].status.Running?)
    && (forall w, v :: w in s.held && v in s.held && w != v ==> s.held[w].id != s.held[v].id)
    && (forall w :: w in s.reading ==> s.reading[w].id in s.jobs)
  }

  const INITIAL: State := State(map[], map[], map[], map[], map[])

  lemma RowKeepsValid(jobs: Jobs, id: JobId, row: Job)
    requires ValidJobs(jobs) && row.Valid()
    requires id in jobs ==> row.kind == jobs[id].kind && row.identity == jobs[id].identity
    requires id !in jobs ==> forall j :: j in jobs ==> jobs[j].kind != row.kind || jobs[j].identity != row.identity
    ensures ValidJobs(jobs[id := row])
  {
  }

  lemma GrantKeepsExclusive(s: State, w: Worker, h: Held)
    requires Exclusive(s) && h.id in s.jobs && s.jobs[h.id].Waiting()
    ensures Exclusive(Granted(s, w, h))
  {
    RowKeepsValid(s.jobs, h.id, s.jobs[h.id].(status := Running));
    hide ValidJobs;
  }

  lemma UpdateKeepsExclusive(s: State, w: Worker)
    requires Exclusive(s)
    ensures Exclusive(AfterUpdate(s, w))
  {
    hide ValidJobs, Granted;
    if w in s.reading {
      var h, rest := s.reading[w], s.(reading := s.reading - {w});
      assert Exclusive(rest);
      if h.id in s.jobs && s.jobs[h.id].Waiting() { GrantKeepsExclusive(rest, w, h); }
    }
  }

  lemma SuccessKeepsExclusive(s: State, w: Worker)
    requires Exclusive(s)
    ensures Exclusive(AfterSuccess(s, w))
  {
    if w in s.held {
      var id := s.held[w].id;
      RowKeepsValid(s.jobs, id, s.jobs[id].(status := Succeeded, lastError := None));
    }
    hide ValidJobs;
  }

  lemma FailureKeepsExclusive(policy: RetryPolicy, s: State, w: Worker, code: string, message: string, now: Instant)
    requires Exclusive(s)
    ensures Exclusive(AfterFailure(policy, s, w, code, message, now))
  {
    hide Fail, ValidJobs;
    if w in s.held && now.Valid() && Fail(s.jobs, s.held[w].id, s.held[w].copy, code, message, policy, now).Ok? {
      FailKeepsValid(s.jobs, s.held[w].id, s.held[w].copy, code, message, policy, now);
      FailedShape(policy, s.jobs, s.held[w], code, message, now);
    }
  }

  lemma EnqueueKeepsExclusive(s: State, id: JobId, job: Job)
    requires Exclusive(s)
    ensures Exclusive(Enqueued(s, id, job))
  {
    if Enqueued(s, id, job) != s { RowKeepsValid(s.jobs, id, job); }
    hide ValidJobs;
  }

  lemma StepKeepsExclusive(policy: RetryPolicy, s: State, e: Event)
    requires Exclusive(s)
    ensures Exclusive(Step(policy, s, e))
  {
    hide Exclusive, Enqueued, AfterClaim, AfterRead, AfterUpdate, AfterSuccess, AfterFailure;
    match e
    case Enqueue(id, kind, identity, payload, maxAttempts, now) =>
      EnqueueKeepsExclusive(s, id, Job(kind, identity, payload, Pending, 0, maxAttempts, None, None, now));
    case Claim(w, id, now) => ClaimKeepsExclusive(s, w, id, now);
    case ClaimRead(w, id, now) => ReadKeepsExclusive(s, w, id, now);
    case ClaimUpdate(w) => UpdateKeepsExclusive(s, w);
    case MarkSucceeded(w) => SuccessKeepsExclusive(s, w);
    case MarkFailed(w, code, message, now) => FailureKeepsExclusive(policy, s, w, code, message, now);
  }

  lemma ClaimKeepsExclusive(s: State, w: Worker, id: JobId, now: Instant)
    requires Exclusive(s)
    ensures Exclusive(AfterClaim(s, w, id, now))
  {
    hide IsoFormat, Granted, Text.StrLess, ValidJobs;
    if Idle(s, w) && now.Valid() && FirstDue(s.jobs, id, now) {
      GrantKeepsExclusive(s, w, Held(id, s.jobs[id].(status := Running)));
    }
  }

  lemma ReadKeepsExclusive(s: State, w: Worker, id: JobId, now: Instant)
    requires Exclusive(s)
    ensures Exclusive(AfterRead(s, w, id, now))
  {
    hide IsoFormat, Text.StrLess, ValidJobs, Due;
  }

  ghost function Run(policy: RetryPolicy, events: seq<Event>): (s: State)
    ensures Exclusive(s)
  {
    if events == [] then INITIAL
    else
      var before := Run(policy, events[..|events| - 1]);
      StepKeepsExclusive(policy, before, events[|events| - 1]);
      Step(policy, before, events[|events| - 1])
  }

  /** In no run, claims split or not, do two workers ever hold one job at the same time. */
  lemma NoSharedJob(policy: RetryPolicy, events: seq<Event>, w: Worker, v: Worker)
    requires w in Run(policy, events).held && v in Run(policy, events).held && w != v
    ensures Run(policy, events).held[w].id != Run(policy, events).held[v].id
  {
    assert Exclusive(Run(policy, events));
  }

  /** A granted claim is never early and never skips an older due job. */
  lemma ClaimsRespectTime(policy: RetryPolicy, events: seq<Event>, w: Worker, id: JobId, now: Instant)
    requires now.Valid() && w !in Run(policy, events).held
    requires w in Step(policy, Run(policy, events), Claim(w, id, now)).held
    ensures var s := Run(policy, events);
      && id in s.jobs && s.jobs[id].Valid() && DueInTime(s.jobs[id], now)
      && Step(policy, s, Claim(w, id, now)).held[w] == Held(id, s.jobs[id].(status := Running))
      && forall j :: j in s.jobs && s.jobs[j].Valid() && DueInTime(s.jobs[j], now) ==>
          s.jobs[id].Valid() && Micros(s.jobs[id].createdAt) <= Micros(s.jobs[j].createdAt)
  {
    hide Due, IsoFormat, Micros;
    FirstDueIsOldestInTime(Run(policy, events).jobs, id, now);
  }

  // ----- What a recorded failure is and does

  /** The event records a failure of job `id`. */
  ghost predicate Records(policy: RetryPolicy, s: State, e: Event, id: JobId) {
    && e.MarkFailed? && e.now.Valid() && e.worker in s.held && s.held[e.worker].id == id
    && Fail(s.jobs, id, s.held[e.worker].copy, e.code, e.message, policy, e.now).Ok?
  }

  /** The copy the worker holds has the row's number of attempts. */
  predicate HoldsFresh(s: State, w: Worker) {
    w in s.held && s.held[w].id in s.jobs && s.held[w].copy.attempts == s.jobs[s.held[w].id].attempts
  }

  /** What a recorded failure does to its job's row. */
  lemma FailedShape(policy: RetryPolicy, jobs: Jobs, h: Held, code: string, message: string, now: Instant)
    requires now.Valid() && h.id in jobs && Fail(jobs, h.id, h.copy, code, message, policy, now).Ok?
    ensures var row := Fail(jobs, h.id, h.copy, code, message, policy, now).value;
      && h.id in row && row == jobs[h.id := row[h.id]]
      && row[h.id].attempts == h.copy.attempts + 1
      && (row[h.id].status.InRetry? || row[h.id].status.DeadLetter?)
      && (row[h.id].status.InRetry? ==> row[h.id].attempts < policy.maxAttempts)
  {
    hide AddSeconds;
  }

  /** What a worker's own steps do when they can happen: to the job's row, and to what the worker holds. */
  lemma WorkerStepsMean(policy: RetryPolicy, s: State, w: Worker, id: JobId, now: Instant)
    requires Exclusive(s) && now.Valid()
    ensures var t := Step(policy, s, Claim(w, id, now));
      if w !in s.held && w !in s.reading && FirstDue(s.jobs, id, now) then
        && t.jobs == Claimed(s.jobs, id) && t.held == s.held[w := Held(id, s.jobs[id].(status := Running))] && t.reading == s.reading
        && t.claims == s.claims[id := CountOf(s.claims, id) + 1] && t.failures == s.failures
      else t == s
    ensures var t := Step(policy, s, ClaimRead(w, id, now));
      if w !in s.held && w !in s.reading && FirstDue(s.jobs, id, now) then
        t == s.(reading := s.reading[w := Held(id, s.jobs[id].(status := Running))])
      else t == s
    ensures var t := Step(policy, s, ClaimUpdate(w));
      if w !in s.reading then t == s
      else
        var h := s.reading[w];
        && t.reading == s.reading - {w} && t.failures == s.failures
        && if s.jobs[h.id].status in {Pending, InRetry} then
             && t.jobs == Claimed(s.jobs, h.id) && t.held == s.held[w := h]
             && t.claims == s.claims[h.id := CountOf(s.claims, h.id) + 1]
           else t.jobs == s.jobs && t.held == s.held && t.claims == s.claims
    ensures var t := Step(policy, s, MarkSucceeded(w));
      if w !in s.held then t == s
      else t == s.(jobs := Succeed(s.jobs, s.held[w].id), held := s.held - {w})
  {
    hide FirstDue, Claimed, Succeed, ValidJobs;
  }
}
