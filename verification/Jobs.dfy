/** The durable job queue: retry policy, the store's four operations, and runs of many workers over it. */
module Jobs {
  import opened Wrappers
  import opened Text
  import opened Timestamps

  // ----- Retry policy

  function Pow2(n: nat): nat { if n == 0 then 1 else 2 * Pow2(n - 1) }

  datatype RetryPolicy = RetryPolicy(maxAttempts: int, baseDelay: nat, maxDelay: nat)

  datatype RetryDecision = Retry(delay: nat) | GiveUp(permanent: bool)

  const PERMANENT_ERRORS := {"invalid_pdf", "schema_invalid", "evidence_missing", "permission_denied"}

  /** `next_attempt`: capped exponential back-off. */
  function NextAttempt(policy: RetryPolicy, attempt: nat, code: string): (d: RetryDecision)
    ensures d.Retry? <==> attempt < policy.maxAttempts && code !in PERMANENT_ERRORS
    ensures d.Retry? ==> d.delay <= policy.maxDelay && d.delay <= policy.baseDelay * Pow2(attempt)
    ensures d.Retry? ==> d.delay == policy.maxDelay || d.delay == policy.baseDelay * Pow2(attempt)
  {
    if attempt >= policy.maxAttempts then GiveUp(false)
    else if code in PERMANENT_ERRORS then GiveUp(true)
    else
      var delay := policy.baseDelay * Pow2(attempt);
      Retry(if delay < policy.maxDelay then delay else policy.maxDelay)
  }

  lemma {:induction false} Pow2Grows(n: nat)
    ensures 1 <= Pow2(n) < Pow2(n + 1)
  {
    if n > 0 { Pow2Grows(n - 1); }
  }

  /** Each attempt doubles: `Pow2` is the one function with these two properties. */
  lemma {:induction false} Pow2Adds(m: nat, n: nat)
    ensures Pow2(m + n) == Pow2(m) * Pow2(n) && Pow2(1) == 2
  {
    assert Pow2(1) == 2 * Pow2(0);
    if m > 0 {
      Pow2Adds(m - 1, n);
      assert 2 * (Pow2(m - 1) * Pow2(n)) == 2 * Pow2(m - 1) * Pow2(n);
    }
  }

  /** Delays never shrink from one attempt to the next. */
  lemma DelaysGrow(policy: RetryPolicy, attempt: nat, code: string)
    requires NextAttempt(policy, attempt + 1, code).Retry?
    ensures NextAttempt(policy, attempt, code).Retry?
    ensures NextAttempt(policy, attempt, code).delay <= NextAttempt(policy, attempt + 1, code).delay
  {
    Pow2Grows(attempt);
    Scale(policy.baseDelay, Pow2(attempt), Pow2(attempt + 1));
  }

  lemma Scale(k: nat, a: nat, b: nat)
    requires a <= b
    ensures k * a <= k * b
  {
  }

  // ----- Rows

  datatype JobKind = Ingest | Parse | Extract | Validate

  datatype JobStatus = Pending | Running | Succeeded | InRetry | DeadLetter

  datatype Job = Job(
    kind: JobKind, identity: string, payload: string, status: JobStatus, attempts: nat, maxAttempts: int,
    nextRetryAt: Option<Instant>, lastError: Option<string>, createdAt: Instant)
  {
    predicate Valid() { createdAt.Valid() && (nextRetryAt.Some? ==> nextRetryAt.value.Valid()) }

    predicate Waiting() { status.Pending? || status.InRetry? }
  }

  type JobId = nat
  type Jobs = map<JobId, Job>

  ghost predicate ValidJobs(jobs: Jobs) {
    && (forall j :: j in jobs ==> jobs[j].Valid())
    && (forall j, k :: j in jobs && k in jobs && jobs[j].kind == jobs[k].kind && jobs[j].identity == jobs[k].identity ==> j == k)
  }

  /** The `WHERE` of a claim: text comparison of ISO timestamps. */
  predicate Due(job: Job, now: Instant)
    requires job.Valid() && now.Valid()
  {
    job.Waiting() && (job.nextRetryAt.None? || StrLeq(IsoFormat(job.nextRetryAt.value), IsoFormat(now)))
  }

  /** The `ORDER BY created_at LIMIT 1`: due, and no due job has an earlier text. */
  ghost predicate FirstDue(jobs: Jobs, id: JobId, now: Instant)
    requires ValidJobs(jobs) && now.Valid()
  {
    && id in jobs && Due(jobs[id], now)
    && forall j :: j in jobs && Due(jobs[j], now) ==> StrLeq(IsoFormat(jobs[id].createdAt), IsoFormat(jobs[j].createdAt))
  }

  /** In terms of time: never before the retry time, and oldest first. */
  lemma FirstDueIsOldestInTime(jobs: Jobs, id: JobId, now: Instant)
    requires ValidJobs(jobs) && now.Valid()
    ensures FirstDue(jobs, id, now) <==>
      && id in jobs && DueInTime(jobs[id], now)
      && forall j :: j in jobs && DueInTime(jobs[j], now) ==> Micros(jobs[id].createdAt) <= Micros(jobs[j].createdAt)
  {
    hide IsoFormat, Micros, ValidJobs, StrLess;
    if id in jobs { ValidJob(jobs, id); }
    forall j | j in jobs
      ensures jobs[j].Valid()
      ensures Due(jobs[j], now) <==> DueInTime(jobs[j], now)
      ensures id in jobs ==>
        (StrLeq(IsoFormat(jobs[id].createdAt), IsoFormat(jobs[j].createdAt)) <==>
         Micros(jobs[id].createdAt) <= Micros(jobs[j].createdAt))
    {
      ValidJob(jobs, j);
      DueIsDueInTime(jobs[j], now);
      if id in jobs {
        IsoOrderIsTimeOrder(jobs[j].createdAt, jobs[id].createdAt);
      }
    }
  }

  lemma ValidJob(jobs: Jobs, j: JobId)
    requires ValidJobs(jobs) && j in jobs
    ensures jobs[j].Valid()
  {
  }

  predicate DueInTime(job: Job, now: Instant)
    requires job.Valid() && now.Valid()
  {
    job.Waiting() && (job.nextRetryAt.None? || Micros(job.nextRetryAt.value) <= Micros(now))
  }

  lemma DueIsDueInTime(job: Job, now: Instant)
    requires job.Valid() && now.Valid()
    ensures Due(job, now) <==> DueInTime(job, now)
  {
    hide IsoFormat, Micros;
    if job.nextRetryAt.Some? {
      IsoOrderIsTimeOrder(now, job.nextRetryAt.value);
    }
  }

  // ----- What each operation does to the rows

  function Claimed(jobs: Jobs, id: JobId): Jobs
    requires id in jobs
  {
    jobs[id := jobs[id].(status := Running)]
  }

  function Succeed(jobs: Jobs, id: JobId): Jobs {
    if id in jobs then jobs[id := jobs[id].(status := Succeeded, lastError := None)] else jobs
  }

  datatype MarkError = Overflow | NoSuchJob

  /** The row after a failure: the attempt is counted from the caller's copy of the job, not from the row. */
  function FailedRow(row: Job, copy: Job, message: string, decision: RetryDecision, retryAt: Option<Instant>): Job {
    row.(status := if decision.Retry? then InRetry else DeadLetter, attempts := copy.attempts + 1,
         nextRetryAt := retryAt, lastError := Some(message))
  }

  function Fail(jobs: Jobs, id: JobId, copy: Job, code: string, message: string, policy: RetryPolicy, now: Instant)
    : Result<Jobs, MarkError>
    requires now.Valid()
  {
    var decision := NextAttempt(policy, copy.attempts + 1, code);
    var retryAt := if decision.Retry? then AddSeconds(now, decision.delay) else None;
    if decision.Retry? && retryAt.None? then Err(Overflow)
    else if id !in jobs then Err(NoSuchJob)
    else Ok(jobs[id := FailedRow(jobs[id], copy, code + ":" + message, decision, retryAt)])
  }

  /** The smaller of the cap and the doubled base delay. */
  function Backoff(policy: RetryPolicy, attempt: nat): nat {
    var doubled := policy.baseDelay * Pow2(attempt);
    if policy.maxDelay <= doubled then policy.maxDelay else doubled
  }

  /** What a failed job becomes: a retry that much later, or a dead letter; the row keeps everything else. */
  lemma FailureMeans(jobs: Jobs, id: JobId, copy: Job, code: string, message: string, policy: RetryPolicy, now: Instant)
    requires now.Valid()
    ensures
      var r := Fail(jobs, id, copy, code, message, policy, now);
      var attempt := copy.attempts + 1;
      var again := attempt < policy.maxAttempts && code !in {"invalid_pdf", "schema_invalid", "evidence_missing", "permission_denied"};
      && (r == Err(Overflow) <==> again && AddSeconds(now, Backoff(policy, attempt)).None?)
      && (r == Err(NoSuchJob) <==> !(again && AddSeconds(now, Backoff(policy, attempt)).None?) && id !in jobs)
      && (r.Ok? ==>
            && id in jobs && r.value.Keys == jobs.Keys && (forall j :: j in jobs && j != id ==> r.value[j] == jobs[j])
            && var was, row := jobs[id], r.value[id];
            && row.status == (if again then InRetry else DeadLetter) && row.attempts == attempt
            && row.lastError == Some(code + ":" + message)
            && row.nextRetryAt == (if again then AddSeconds(now, Backoff(policy, attempt)) else None)
            && row.kind == was.kind && row.identity == was.identity && row.payload == was.payload
            && row.maxAttempts == was.maxAttempts && row.createdAt == was.createdAt)
  {
    hide AddSeconds, Pow2;
  }

  /** A claim and a success touch one row: its status, and for a success its error. */
  lemma ClaimAndSuccessMean(jobs: Jobs, id: JobId)
    requires id in jobs
    ensures Claimed(jobs, id).Keys == jobs.Keys && Succeed(jobs, id).Keys == jobs.Keys
    ensures forall j :: j in jobs && j != id ==> Claimed(jobs, id)[j] == jobs[j] && Succeed(jobs, id)[j] == jobs[j]
    ensures var was, row := jobs[id], Claimed(jobs, id)[id]; row.status == Running && row.(status := was.status) == was
    ensures var was, row := jobs[id], Succeed(jobs, id)[id];
      row.status == Succeeded && row.lastError == None && row.(status := was.status, lastError := was.lastError) == was
  {
  }

  lemma FailKeepsValid(jobs: Jobs, id: JobId, copy: Job, code: string, message: string, policy: RetryPolicy, now: Instant)
    requires ValidJobs(jobs) && now.Valid() && Fail(jobs, id, copy, code, message, policy, now).Ok?
    ensures ValidJobs(Fail(jobs, id, copy, code, message, policy, now).value)
  {
    hide AddSeconds, NextAttempt;
  }

  /** The query of a claim, as a scan that keeps the earliest due row seen. */
  method FindFirstDue(jobs: Jobs, now: Instant) returns (best: Option<JobId>)
    requires ValidJobs(jobs) && now.Valid()
    ensures best.None? ==> forall j :: j in jobs ==> jobs[j].Valid() && !DueInTime(jobs[j], now)
    ensures best.Some? ==> FirstDue(jobs, best.value, now)
  {
    var due := set j | j in jobs && Due(jobs[j], now);
    best := None;
    var rest := due;
    while rest != {}
      invariant rest <= due
      invariant best.None? ==> rest == due
      invariant best.Some? ==> best.value in due && NoneEarlier(jobs, best.value, due - rest)
      decreases rest
    {
      hide Due, IsoFormat, StrLess;
      var j :| j in rest;
      ValidJob(jobs, j);
      if best.None? {
        StrLessTrichotomy(IsoFormat(jobs[j].createdAt), IsoFormat(jobs[j].createdAt));
        best := Some(j);
      } else if StrLess(IsoFormat(jobs[j].createdAt), IsoFormat(jobs[best.value].createdAt)) {
        EarlierThanAll(jobs, j, best.value, due - rest);
        best := Some(j);
      } else {
        assert StrLeq(IsoFormat(jobs[best.value].createdAt), IsoFormat(jobs[j].createdAt));
      }
      rest := rest - {j};
    }
    hide Due, IsoFormat, Micros, StrLess, DueInTime;
    forall j | j in jobs
      ensures jobs[j].Valid()
      ensures Due(jobs[j], now) <==> DueInTime(jobs[j], now)
      ensures Due(jobs[j], now) ==> j in due
    {
      DueIsDueInTime(jobs[j], now);
    }
  }

  ghost predicate NoneEarlier(jobs: Jobs, id: JobId, others: set<JobId>)
    requires ValidJobs(jobs) && id in jobs
  {
    forall j :: j in others && j in jobs ==> StrLeq(IsoFormat(jobs[id].createdAt), IsoFormat(jobs[j].createdAt))
  }

  // ----- The store

  class JobStore {
    var jobs: Jobs

    ghost predicate Valid()
      reads this
    {
      ValidJobs(jobs)
    }

    constructor ()
      ensures Valid() && jobs == map[]
    {
      jobs := map[];
    }

    /** Idempotent on (kind, identity): a known pair returns its row unchanged. */
    method Enqueue(newId: JobId, kind: JobKind, identity: string, payload: string, maxAttempts: int, now: Instant)
      returns (id: JobId, job: Job)
      requires Valid() && now.Valid() && newId !in jobs
      modifies this
      ensures Valid()
      ensures id in jobs && job == jobs[id] && job.kind == kind && job.identity == identity
      ensures id in old(jobs) ==> jobs == old(jobs)
      ensures id !in old(jobs) ==>
        id == newId && jobs == old(jobs)[id := Job(kind, identity, payload, Pending, 0, maxAttempts, None, None, now)]
    {
      var known := set j | j in jobs && jobs[j].kind == kind && jobs[j].identity == identity;
      if known == {} {
        assert forall j :: j in jobs && jobs[j].kind == kind && jobs[j].identity == identity ==> j in known;
        id := newId;
        jobs := jobs[id := Job(kind, identity, payload, Pending, 0, maxAttempts, None, None, now)];
      } else {
        id :| id in known;
      }
      job := jobs[id];
    }

    /** `claim_next` as one transaction. */
    method ClaimNext(now: Instant) returns (claim: Option<(JobId, Job)>)
      requires Valid() && now.Valid()
      modifies this
      ensures Valid()
      ensures claim.None? ==> jobs == old(jobs) && forall j :: j in jobs ==> jobs[j].Valid() && !DueInTime(jobs[j], now)
      ensures claim.Some? ==>
        && FirstDue(old(jobs), claim.value.0, now)
        && jobs == Claimed(old(jobs), claim.value.0) && claim.value.1 == jobs[claim.value.0]
    {
      var best := FindFirstDue(jobs, now);
      if best.None? {
        return None;
      }
      hide Due, FirstDue, DueInTime;
      jobs := Claimed(jobs, best.value);
      claim := Some((best.value, jobs[best.value]));
    }

    method MarkSucceeded(id: JobId)
      requires Valid()
      modifies this
      ensures Valid() && jobs == Succeed(old(jobs), id)
    {
      if id in jobs {
        jobs := jobs[id := jobs[id].(status := Succeeded, lastError := None)];
      }
    }

    method MarkFailed(id: JobId, copy: Job, code: string, message: string, policy: RetryPolicy, now: Instant)
      returns (r: Result<Job, MarkError>)
      requires Valid() && now.Valid()
      modifies this
      ensures Valid()
      ensures Fail(old(jobs), id, copy, code, message, policy, now).Ok? <==> r.Ok?
      ensures r.Ok? ==> jobs == Fail(old(jobs), id, copy, code, message, policy, now).value && id in jobs && r.value == jobs[id]
      ensures r.Err? ==> jobs == old(jobs) && r.error == Fail(old(jobs), id, copy, code, message, policy, now).error
    {
      hide AddSeconds;
      var attempt := copy.attempts + 1;
      var decision := NextAttempt(policy, attempt, code);
      var retryAt: Option<Instant> := None;
      if decision.Retry? {
        retryAt := AddSeconds(now, decision.delay);
        if retryAt.None? {
          return Err(Overflow);
        }
      }
      if id !in jobs {
        return Err(NoSuchJob);
      }
      FailKeepsValid(jobs, id, copy, code, message, policy, now);
      jobs := jobs[id := FailedRow(jobs[id], copy, code + ":" + message, decision, retryAt)];
      return Ok(jobs[id]);
    }
  }

  lemma EarlierThanAll(jobs: Jobs, j: JobId, best: JobId, seen: set<JobId>)
    requires ValidJobs(jobs) && j in jobs && best in jobs
    requires StrLess(IsoFormat(jobs[j].createdAt), IsoFormat(jobs[best].createdAt)) && NoneEarlier(jobs, best, seen)
    ensures NoneEarlier(jobs, j, seen + {j})
  {
    hide IsoFormat, StrLess;
    StrLessTrichotomy(IsoFormat(jobs[j].createdAt), IsoFormat(jobs[j].createdAt));
    StrLessTrichotomy(IsoFormat(jobs[j].createdAt), IsoFormat(jobs[best].createdAt));
    forall k | k in seen && k in jobs
      ensures StrLeq(IsoFormat(jobs[j].createdAt), IsoFormat(jobs[k].createdAt))
    {
      StrLeqTransitive(IsoFormat(jobs[j].createdAt), IsoFormat(jobs[best].createdAt), IsoFormat(jobs[k].createdAt));
    }
  }
}
