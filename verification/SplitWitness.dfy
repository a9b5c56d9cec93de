/** One run with split claims that shows, step by step, what a claim in one transaction rules out. */
module SplitWitness {
  import opened Wrappers
  import Text
  import opened Timestamps
  import opened Jobs
  import opened JobRuns
  import opened JobCounts

  const TWO_TRIES := RetryPolicy(2, 30, 3600)

  /** A minute after `t`, where the calendar has one. */
  function Next(t: Instant): Instant
    requires t.Valid() && AddSeconds(t, 60).Some?
  {
    AddSeconds(t, 60).value
  }

  predicate Roomy(now: Instant) {
    now.Valid() && AddSeconds(now, 60).Some? && AddSeconds(Next(now), 60).Some?
  }

  /**
   Worker 1 reads; worker 2 claims and fails; worker 3 reads the retry; worker 1's update still succeeds, and
   worker 1 fails; worker 3 updates.
   */
  function SplitRun(now: Instant): seq<Event>
    requires Roomy(now)
  {
    [Enqueue(0, Parse, "doc", "", 2, now), ClaimRead(1, 0, now), Claim(2, 0, now), MarkFailed(2, "timeout", "", now),
     ClaimRead(3, 0, Next(now)), ClaimUpdate(1), MarkFailed(1, "timeout", "", Next(now)), ClaimUpdate(3)]
  }

  function NewRow(now: Instant): Job { Job(Parse, "doc", "", Pending, 0, 2, None, None, now) }

  function Copy(row: Job): Held { Held(0, row.(status := Running)) }

  /** The row after the first failure: due in a minute, one attempt. */
  function RetryRow(now: Instant): Job
    requires Roomy(now)
  {
    FailedRow(Copy(NewRow(now)).copy, Copy(NewRow(now)).copy, "timeout:", Retry(60), Some(Next(now)))
  }

  /** The row after the second failure, made with the first copy: still one attempt. */
  function ForgetfulRow(now: Instant): Job
    requires Roomy(now)
  {
    FailedRow(Copy(RetryRow(now)).copy, Copy(NewRow(now)).copy, "timeout:", Retry(60), Some(Next(Next(now))))
  }

  function Stage(now: Instant, k: nat): State
    requires Roomy(now) && k <= 8
  {
    var original, first, second := NewRow(now), RetryRow(now), ForgetfulRow(now);
    match k
    case 0 => INITIAL
    case 1 => State(map[0 := original], map[], map[], map[], map[])
    case 2 => State(map[0 := original], map[1 := Copy(original)], map[], map[], map[])
    case 3 => State(map[0 := Copy(original).copy], map[1 := Copy(original)], map[2 := Copy(original)], map[0 := 1], map[])
    case 4 => State(map[0 := first], map[1 := Copy(original)], map[], map[0 := 1], map[0 := 1])
    case 5 => State(map[0 := first], map[1 := Copy(original), 3 := Copy(first)], map[], map[0 := 1], map[0 := 1])
    case 6 => State(map[0 := Copy(first).copy], map[3 := Copy(first)], map[1 := Copy(original)], map[0 := 2], map[0 := 1])
    case 7 => State(map[0 := second], map[3 := Copy(first)], map[], map[0 := 2], map[0 := 2])
    case 8 => State(map[0 := Copy(second).copy], map[], map[3 := Copy(first)], map[0 := 3], map[0 := 2])
  }

  lemma NextIsLater(now: Instant)
    requires now.Valid() && AddSeconds(now, 60).Some?
    ensures Next(now).Valid() && Micros(now) < Micros(Next(now))
  {
    hide Micros;
  }

  /** The only job is the first due one as soon as it is due. */
  lemma OnlyJobIsFirst(row: Job, now: Instant)
    requires row.Valid() && now.Valid() && DueInTime(row, now)
    ensures ValidJobs(map[0 := row]) && FirstDue(map[0 := row], 0, now)
  {
    hide IsoFormat, Micros, Text.StrLess;
    DueIsDueInTime(row, now);
    Text.StrLessTrichotomy(IsoFormat(row.createdAt), IsoFormat(row.createdAt));
  }

  lemma FirstTryFails(row: Job, copy: Job, now: Instant)
    requires now.Valid() && copy.attempts == 0 && AddSeconds(now, 60).Some?
    ensures Fail(map[0 := row], 0, copy, "timeout", "", TWO_TRIES, now) ==
      Ok(map[0 := FailedRow(row, copy, "timeout:", Retry(60), Some(Next(now)))])
  {
    hide AddSeconds, FailedRow;
    assert Pow2(1) == 2;
    TimeoutIsTransient();
    assert NextAttempt(TWO_TRIES, 1, "timeout") == Retry(60);
    assert "timeout" + ":" + "" == "timeout:";
    var after := FailedRow(row, copy, "timeout:", Retry(60), Some(Next(now)));
    assert (map[0 := row])[0 := after] == map[0 := after];
  }

  lemma TimeoutIsTransient()
    ensures "timeout" !in PERMANENT_ERRORS
  {
    assert |"timeout"| == 7 && |"invalid_pdf"| == 11 && |"schema_invalid"| == 14
      && |"evidence_missing"| == 16 && |"permission_denied"| == 17;
  }

  lemma StagesValid(now: Instant, k: nat)
    requires Roomy(now) && k <= 8
    ensures ValidJobs(Stage(now, k).jobs)
  {
    hide AddSeconds, Micros;
    NextIsLater(now);
    NextIsLater(Next(now));
  }

  lemma ReadStages(now: Instant, k: nat)
    requires Roomy(now) && (k < 3 || k == 4)
    ensures ValidJobs(Stage(now, k).jobs) && Step(TWO_TRIES, Stage(now, k), SplitRun(now)[k]) == Stage(now, k + 1)
  {
    hide AddSeconds, Micros, IsoFormat;
    StagesValid(now, k);
    NextIsLater(now);
    if k == 1 || k == 2 { OnlyJobIsFirst(NewRow(now), now); }
    if k == 4 { OnlyJobIsFirst(RetryRow(now), Next(now)); }
    hide FirstDue, ValidJobs, FailedRow;
    if k == 2 { assert Claimed(Stage(now, 2).jobs, 0) == Stage(now, 3).jobs; }
  }

  lemma FailureStages(now: Instant, k: nat)
    requires Roomy(now) && (k == 3 || k == 6)
    ensures ValidJobs(Stage(now, k).jobs) && Step(TWO_TRIES, Stage(now, k), SplitRun(now)[k]) == Stage(now, k + 1)
  {
    hide Fail, AddSeconds, FailedRow, Micros;
    StagesValid(now, k);
    NextIsLater(now);
    var s := Stage(now, k);
    if k == 3 {
      FirstTryFails(s.jobs[0], Copy(NewRow(now)).copy, now);
      assert s.held - {2} == map[];
    } else {
      FirstTryFails(s.jobs[0], Copy(NewRow(now)).copy, Next(now));
      assert s.held - {1} == map[];
    }
    hide ValidJobs;
  }

  lemma UpdateStages(now: Instant, k: nat)
    requires Roomy(now) && (k == 5 || k == 7)
    ensures ValidJobs(Stage(now, k).jobs) && Step(TWO_TRIES, Stage(now, k), SplitRun(now)[k]) == Stage(now, k + 1)
  {
    hide AddSeconds, Micros;
    StagesValid(now, k);
    hide ValidJobs;
    var s := Stage(now, k);
    if k == 5 {
      assert s.reading - {1} == map[3 := Copy(RetryRow(now))];
    } else {
      assert s.reading - {3} == map[];
    }
    assert Claimed(s.jobs, 0) == Stage(now, k + 1).jobs;
  }

  lemma {:induction false} Reaches(now: Instant, k: nat)
    requires Roomy(now) && k <= 8
    ensures Run(TWO_TRIES, SplitRun(now)[..k]) == Stage(now, k)
  {
    if k > 0 {
      Reaches(now, k - 1);
      assert SplitRun(now)[..k][..k - 1] == SplitRun(now)[..k - 1];
      if k == 4 || k == 7 {
        FailureStages(now, k - 1);
      } else if k == 6 || k == 8 {
        UpdateStages(now, k - 1);
      } else {
        ReadStages(now, k - 1);
      }
      hide Step, Stage;
    }
  }

  /**
   The sixth event grants a job a minute before its retry time, with a copy that has forgotten a failure; the
   failure that follows leaves two failures counted as one attempt.
   */
  lemma SplitClaimLosesAttempts(now: Instant)
    requires Roomy(now)
    ensures SplitRun(now)[1] == ClaimRead(1, 0, now) && Next(now).Valid() && Micros(now) < Micros(Next(now))
    ensures var s := Run(TWO_TRIES, SplitRun(now)[..6]);
      && 1 in s.held && s.held[1].id == 0 && 0 in s.jobs && s.jobs[0].nextRetryAt == Some(Next(now))
      && s.held[1].copy.attempts == 0 && s.jobs[0].attempts == 1
    ensures var s := Run(TWO_TRIES, SplitRun(now)[..7]);
      0 in s.jobs && s.jobs[0].attempts == 1 && CountOf(s.failures, 0) == 2
  {
    hide Run, AddSeconds, Micros;
    Reaches(now, 6);
    Reaches(now, 7);
    NextIsLater(now);
  }

  /**
   Once a stale copy has been written back, a copy may look up to date although a failure was recorded since
   its read: worker 3 read before the second failure and has the row's attempts after it.
   */
  lemma StaleCopyCanLookFresh(now: Instant)
    requires Roomy(now)
    ensures SplitRun(now)[4] == ClaimRead(3, 0, Next(now))
    ensures Records(TWO_TRIES, Run(TWO_TRIES, SplitRun(now)[..6]), SplitRun(now)[6], 0)
    ensures var s := Run(TWO_TRIES, SplitRun(now)[..7]);
      0 in s.jobs && 3 in s.reading && s.reading[3].id == 0 && s.reading[3].copy.attempts == s.jobs[0].attempts
  {
    hide Run, AddSeconds, Micros;
    Reaches(now, 6);
    Reaches(now, 7);
    NextIsLater(now);
    FirstTryFails(Stage(now, 6).jobs[0], Copy(NewRow(now)).copy, Next(now));
    hide Fail;
  }

  /** The eighth event grants a third claim where the policy allows two. */
  lemma SplitClaimsExceedLimit(now: Instant)
    requires Roomy(now)
    ensures CountOf(Run(TWO_TRIES, SplitRun(now)).claims, 0) == 3 > Bound(TWO_TRIES)
  {
    hide Run, AddSeconds, Micros;
    Reaches(now, 8);
    assert SplitRun(now)[..8] == SplitRun(now);
  }
}
