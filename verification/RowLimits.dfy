/**
 The limit a job row carries. `mark_failed` consults the policy only, so the row's own limit holds exactly
 when the policy's is no larger.
 */
module RowLimits {
  import opened Wrappers
  import opened Calendar
  import opened Timestamps
  import opened Jobs
  import opened JobRuns
  import opened JobCounts
  import SplitWitness

  /** A policy no larger than the row's limit keeps every one-transaction run within that limit. */
  lemma RowLimitHolds(policy: RetryPolicy, events: seq<Event>, id: JobId)
    requires AllAtomic(events) && id in Run(policy, events).jobs
    requires policy.maxAttempts <= AtLeastOne(Run(policy, events).jobs[id].maxAttempts)
    ensures CountOf(Run(policy, events).claims, id) <= AtLeastOne(Run(policy, events).jobs[id].maxAttempts)
  {
    AttemptsAreFailures(policy, events, id);
    hide Run;
  }

  // ----- A run that uses up any smaller row limit

  function Delay(policy: RetryPolicy, attempt: nat): nat {
    var d := NextAttempt(policy, attempt, "timeout");
    if d.Retry? then d.delay else 0
  }

  /** The time of the claim after `k` failures, each recorded at the moment of its claim; None past year 9999. */
  function ClaimTime(policy: RetryPolicy, start: Instant, k: nat): (t: Option<Instant>)
    requires start.Valid()
    ensures t.Some? ==> t.value.Valid()
  {
    if k == 0 then Some(start)
    else
      var before := ClaimTime(policy, start, k - 1);
      if before.None? then None else AddSeconds(before.value, Delay(policy, k))
  }

  /** The job, then `n` times: claim it the moment it is due, and fail. */
  function FailingRun(policy: RetryPolicy, limit: int, start: Instant, n: nat): seq<Event>
    requires start.Valid()
  {
    if n == 0 then [Enqueue(0, Parse, "doc", "", limit, start)]
    else
      var t := ClaimTime(policy, start, n - 1);
      var now := if t.Some? then t.value else start;
      FailingRun(policy, limit, start, n - 1) + [Claim(0, 0, now), MarkFailed(0, "timeout", "", now)]
  }

  /** The job alone, idle and due at `now`, after `k` failures. */
  predicate ReadyAt(s: State, limit: int, now: Instant, k: nat) {
    && now.Valid() && s.jobs.Keys == {0} && s.held == map[] && s.reading == map[]
    && CountOf(s.claims, 0) == k && CountOf(s.failures, 0) == k
    && var row := s.jobs[0];
    && row.Valid() && row.maxAttempts == limit && row.attempts == k && DueInTime(row, now)
  }

  /** In a ready state the claim is granted, with a current copy. */
  lemma ReadyClaim(policy: RetryPolicy, s: State, limit: int, now: Instant, k: nat)
    requires ReadyAt(s, limit, now, k) && Exclusive(s)
    ensures Step(policy, s, Claim(0, 0, now)) == Granted(s, 0, Held(0, s.jobs[0].(status := Running)))
  {
    assert s.jobs == map[0 := s.jobs[0]];
    SplitWitness.OnlyJobIsFirst(s.jobs[0], now);
    hide FirstDue, ValidJobs, DueInTime;
  }

  lemma ReadyFailure(policy: RetryPolicy, s: State, limit: int, now: Instant, k: nat)
    requires ReadyAt(s, limit, now, k) && k + 1 < policy.maxAttempts && AddSeconds(now, Delay(policy, k + 1)).Some?
    ensures var t := Granted(s, 0, Held(0, s.jobs[0].(status := Running)));
      && (ValidJobs(t.jobs) ==>
            ReadyAt(Step(policy, t, MarkFailed(0, "timeout", "", now)), limit, AddSeconds(now, Delay(policy, k + 1)).value, k + 1))
  {
    SplitWitness.TimeoutIsTransient();
    hide AddSeconds, ValidJobs, Micros;
  }

  lemma RunTwo(policy: RetryPolicy, events: seq<Event>, a: Event, b: Event)
    ensures var s := Run(policy, events);
      && Exclusive(s) && Exclusive(Step(policy, s, a))
      && Run(policy, events + [a, b]) == Step(policy, Step(policy, s, a), b)
  {
    hide Run, Step, Exclusive;
    RunOne(policy, events, a);
    RunOne(policy, events + [a], b);
    assert events + [a] + [b] == events + [a, b];
  }

  lemma RunOne(policy: RetryPolicy, events: seq<Event>, e: Event)
    ensures Exclusive(Run(policy, events)) && Run(policy, events + [e]) == Step(policy, Run(policy, events), e)
  {
    assert (events + [e])[..|events + [e]| - 1] == events;
    hide Step;
  }

  lemma {:induction false} FailsAgain(policy: RetryPolicy, limit: int, start: Instant, n: nat)
    requires start.Valid() && n < AtLeastOne(policy.maxAttempts) && ClaimTime(policy, start, n).Some?
    ensures AllAtomic(FailingRun(policy, limit, start, n))
    ensures ReadyAt(Run(policy, FailingRun(policy, limit, start, n)), limit, ClaimTime(policy, start, n).value, n)
  {
    hide Run, Step, ReadyAt, AddSeconds, Granted, ClaimTime, FailingRun, Delay, Exclusive;
    if n == 0 {
      OnlyEnqueued(policy, limit, start);
    } else {
      RoundShape(policy, limit, start, n);
      FailsAgain(policy, limit, start, n - 1);
      RoundAgain(policy, FailingRun(policy, limit, start, n - 1), limit, ClaimTime(policy, start, n - 1).value, n - 1);
    }
  }

  lemma RoundShape(policy: RetryPolicy, limit: int, start: Instant, n: nat)
    requires start.Valid() && 0 < n && ClaimTime(policy, start, n).Some?
    ensures ClaimTime(policy, start, n - 1).Some?
    ensures var now := ClaimTime(policy, start, n - 1).value;
      && ClaimTime(policy, start, n) == AddSeconds(now, Delay(policy, n))
      && FailingRun(policy, limit, start, n) ==
          FailingRun(policy, limit, start, n - 1) + [Claim(0, 0, now), MarkFailed(0, "timeout", "", now)]
  {
    hide AddSeconds, Delay;
  }

  lemma RoundAgain(policy: RetryPolicy, events: seq<Event>, limit: int, now: Instant, k: nat)
    requires ReadyAt(Run(policy, events), limit, now, k) && AllAtomic(events)
    requires k + 1 < policy.maxAttempts && now.Valid() && AddSeconds(now, Delay(policy, k + 1)).Some?
    ensures var longer := events + [Claim(0, 0, now), MarkFailed(0, "timeout", "", now)];
      && AllAtomic(longer)
      && ReadyAt(Run(policy, longer), limit, AddSeconds(now, Delay(policy, k + 1)).value, k + 1)
  {
    var s := Run(policy, events);
    hide Run, Step, AddSeconds, Granted, Delay;
    RunTwo(policy, events, Claim(0, 0, now), MarkFailed(0, "timeout", "", now));
    ReadyClaim(policy, s, limit, now, k);
    ReadyFailure(policy, s, limit, now, k);
  }

  lemma OnlyEnqueued(policy: RetryPolicy, limit: int, start: Instant)
    requires start.Valid()
    ensures AllAtomic(FailingRun(policy, limit, start, 0)) && ClaimTime(policy, start, 0) == Some(start)
    ensures ReadyAt(Run(policy, FailingRun(policy, limit, start, 0)), limit, start, 0)
  {
    var e := Enqueue(0, Parse, "doc", "", limit, start);
    RunOne(policy, [], e);
    assert [] + [e] == [e];
    hide Micros;
  }

  /**
   A policy larger than the row's limit - counted as at least one - exceeds it in some one-transaction run,
   for every start whose retry times stay within the calendar.
   */
  lemma RowLimitExceeded(policy: RetryPolicy, limit: int, start: Instant) returns (events: seq<Event>)
    requires start.Valid() && AtLeastOne(limit) < policy.maxAttempts
    requires ClaimTime(policy, start, AtLeastOne(limit)).Some?
    ensures AllAtomic(events) && 0 in Run(policy, events).jobs && Run(policy, events).jobs[0].maxAttempts == limit
    ensures CountOf(Run(policy, events).claims, 0) == AtLeastOne(limit) + 1
  {
    var n := AtLeastOne(limit);
    FailsAgain(policy, limit, start, n);
    var before, now := FailingRun(policy, limit, start, n), ClaimTime(policy, start, n).value;
    events := before + [Claim(0, 0, now)];
    RunOne(policy, before, Claim(0, 0, now));
    ReadyClaim(policy, Run(policy, before), limit, now, n);
    hide Run, Step;
  }

  /** Under the default policy a row that allows one attempt is granted twice. */
  lemma OneAttemptGrantedTwice() returns (events: seq<Event>)
    ensures var s := Run(RetryPolicy(3, 30, 3600), events);
      && AllAtomic(events) && 0 in s.jobs && s.jobs[0].maxAttempts == 1 && CountOf(s.claims, 0) == 2
  {
    var policy, start := RetryPolicy(3, 30, 3600), Instant(Date(2024, 1, 1), 0, 0, 0, 0);
    FirstDelay();
    SameDay(start, 60);
    assert ClaimTime(policy, start, 0) == Some(start);
    hide Run, AddSeconds, Delay;
    assert ClaimTime(policy, start, 1) == AddSeconds(start, 60);
    events := RowLimitExceeded(policy, 1, start);
  }

  lemma FirstDelay()
    ensures Delay(RetryPolicy(3, 30, 3600), 1) == 60
  {
    SplitWitness.TimeoutIsTransient();
    assert Pow2(1) == 2;
  }

  lemma SameDay(t: Instant, s: nat)
    requires t.Valid() && SecondsOfDay(t) + s < 86400
    ensures AddSeconds(t, s).Some?
  {
  }
}
