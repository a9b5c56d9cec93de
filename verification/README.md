# CATchain: a verified model of its stores, protocols and projections

CATchain turns carbon-project documents into reviewed facts. This project models the parts whose
guarantees hold over every run, and proves those guarantees:

- **The fact store** (`Store`, `StoreInvariant`, `StoreSteps`, `StoreRuns`, `StoreLaws`, `FactStore`): documents,
  imported validations, review decisions, canonical facts and heads. `FactStore` is the store as a class
  whose inserts demand the database's keys, foreign keys and unique constraints; each transaction is proved
  equal to a function in `Store`, and one inductive invariant holds in every store reached from the empty one.
  `StoreLaws` says what imports and decisions do in the terms of the rows.
- **Evidence** (`Text`, `Validation`, `Grounding`): candidate validation, grounding of a model's reply in
  page text, and the later re-checks of the same spans.
- **The paid call** (`SingleFlight`, `PaidCalls`): any number of processes, any interleaving, a crash between any two
  steps; every new cache entry traced to the reply it was made from.
- **Readiness and business checks** (`Readiness`, `BusinessChecks`, `Decimals`, `Division`): the join behind the heads of a
  project, the gates, and BE - PE - LE at 38 digits with its rounding bound.
- **Review queue, jobs, sampling, sync, artefacts, consistency, Gold** (`ReviewQueue`, `ReviewLaws`, `Jobs`, `JobRuns`,
  `JobCounts`, `SplitClaims`, `SplitWitness`, `RowLimits`, `Heaps`, `Sampling`, `Sync`, `Artifacts`, `Snapshots`,
  `Consistency`, `ConsistencyLaws`, `Gold`, `GoldLaws`).

`Fields`, `Calendar`, `Timestamps`, `Domain`, `Sorting`, `Rates` and `Wrappers` hold what they share.
`dafny verify dfyconfig.toml` checks everything.

How the system is read:

- SHA-256 digests and `uuid5` identifiers are injective constructors (`OfDocument`, `OfText`, `OfDecision`,
  `OfCandidate`); `uuid4` identifiers are parameters. A JSON scalar keeps its kind, so `1`, `1.0` and `true` are
  different texts, while Python's `==` on them (`PyEqual`) is modelled where the code uses `==`.
- A float is the decimal its text denotes, as coefficient and exponent. One number has several such forms (10e-1 and
  1e0); a float is taken in the one form its text has, so two of them are the same text only if they are equal forms.
  Confidence, prices and published rates are real numbers.
- Strings are sequences of code points; `<` on strings is code-point order, `strip()` removes the characters
  listed in `Text.IsSpace`, and a date is what `YYYY-MM-DD` denotes with ASCII digits; `\d` in the source also
  accepts other decimal digits, which the model reads as not of that form.
- A database transaction is atomic, `mkdir` and `link` are atomic, and clocks, replies of the language model,
  answers of a registry and the readiness catalogue (a JSON file) are parameters.
- Exceptions are `Err` values or outcomes; where a transaction raises, its tables stay as they were.

Where code and description differ, the code is followed:

- Retries: a job row has its own `max_attempts`, but `mark_failed` consults only the policy. The row's limit holds
  in every run of one-transaction claims if the policy's is no larger (`RowLimits.RowLimitHolds`), and otherwise
  some run exceeds it (`RowLimitExceeded`, `OneAttemptGrantedTwice`).
- A claim's read and guarded update are provably exclusive even when they are separate steps, but then the copy a
  worker gets may be stale and its job not due. `JobCounts.AttemptsAreFailuresIff`, `SplitClaims.GrantedCopyFreshIff`
  and `SplitClaims.GrantedJobDueIff` say exactly when; `SplitWitness` has a run for each failure.
- A sync report calls a run failed when a project that could not be listed is itself named `registry`.
- Two overlapping sync runs of one registry can move the checkpoint back (`Sync.OverlapMovesCursorBack`).
- A quote of white space only can be grounded, but the validator then rejects it.
- `validate_grounding` clamps an end offset beyond the page, the other re-checks refuse it.

## Model

| member | source | states |
|---|---|---|
| Validation.CollectCandidates | src/catchain/validation/extraction.py:93-98 | the dictionary holds, for each field with a value, exactly the distinct value/unit pairs offered for it |
| Validation.CheckObservation | src/catchain/validation/extraction.py:100-195 | the issues of one observation are the evidence issues, then the abstention's or the value's, in order |
| Validation.ValidateExtraction | src/catchain/validation/extraction.py:78-219 | succeeds iff threshold and identities are acceptable; the report checks every observation against all candidates of its field |
| Validation.AllEvidenceGrounded | src/catchain/validation/extraction.py:107-127 | no evidence issue iff every quote is non-blank text of the cited page at its offsets in this document version |
| Validation.NoKindIssuesIffFits | src/catchain/validation/extraction.py:132-174 | no value issue iff the value has the field's type, sign and, for dates, exists in the calendar (dates in ASCII digits) |
| Validation.ValueIssuesFit | src/catchain/validation/extraction.py:132-180 | no value or unit issue iff the value meets the field's contract including its expected unit |
| Validation.OnlySoftCodesIffWellFounded | src/catchain/validation/extraction.py:107-195 | the only codes left are the three an approval may override iff evidence is grounded and the value meets its contract |
| Validation.ReportIsValid | src/catchain/domain/validation.py:20-52 | validation of a valid extraction always yields a report its own model accepts, observation by observation |
| Validation.IssuesAreDeserved | src/catchain/validation/extraction.py:100-195 | an issue is raised iff the observation deserves it: each code has its own condition on evidence, value, unit, confidence, and on another candidate of the field that differs |
| Validation.StatusIsDeserved | src/catchain/validation/extraction.py:196-202 | rejected iff a mechanical code is deserved, missing iff none is |
| Calendar.DateReadsBack | src/catchain/validation/extraction.py:163-174 | every calendar date is read back from its YYYY-MM-DD text |
| Calendar.OnlyTextsAreRead | src/catchain/validation/extraction.py:163-174 | whatever is read as a date is the text of that date |
| Calendar.ReadOrderIsTextOrder | src/catchain/storage/review_repository.py:141-142 | comparing two dates read from texts is comparing the texts |
| Grounding.GroundResponse | src/catchain/extraction/llm/contract.py:86-147 | the loops return the specified extraction or the first error in the source's order |
| Grounding.GroundingSoundAndComplete | src/catchain/extraction/llm/contract.py:99-125 | accepted iff the request is acceptable, fields are covered exactly and every quote occurs once only, overlaps included, on its selected page; spans are those places |
| Grounding.SelectPagesIff | src/catchain/extraction/llm/contract.py:60-83 | pages are accepted iff distinct, in the document, at most eight with 24000 characters in all, and not all blank |
| Grounding.PagesRefusedBecause | src/catchain/extraction/llm/contract.py:68-82 | otherwise refused for the first of five reasons |
| Grounding.ReplyRefusedBecause | src/catchain/extraction/llm/contract.py:101-116 | an acceptable request's reply is refused as malformed, for its coverage, or at its first quote without one place, for that quote's own reason |
| Grounding.GroundedPassesEveryCheck | src/catchain/extraction/llm/contract.py:101-125 | an accepted reply passes `validate_grounding`, the cache reader's and the comparison's span checks, and the validator's iff no quote is blank |
| Grounding.WhitespaceQuoteGroundsButIsRejected | src/catchain/validation/extraction.py:119-120 | a one-space quote grounds and is then rejected by the validator |
| Grounding.ValidateGrounding | src/catchain/extraction/production_run.py:28-48 | counts every evidence item and lists the version mismatch and each span fault in order; valid iff none |
| Grounding.FaultsMean | src/catchain/extraction/production_run.py:30-46 | an issue is reported iff some reference has that fault: no such page, no offsets, or another text at them |
| Grounding.CompareEvidence | src/catchain/extraction/comparison.py:47-57 | the loops finish iff every span holds on a selected page |
| Grounding.RecheckersAgreeInsidePage | src/catchain/extraction/production_run.py:43-47 | on selected pages the two span checks agree exactly for spans that end inside the page |
| Grounding.OverlongSpanSplitsRecheckers | src/catchain/extraction/production_run.py:46-47 | an end offset past the page passes one re-check and fails the other |
| SingleFlight.AdmittedReplyStaysUnderCeiling | src/catchain/extraction/llm/workflow.py:157-167 | a reply within the admitted token bounds never costs more than the ceiling |
| SingleFlight.CostIsPerMillion | src/catchain/extraction/llm/workflow.py:57-66 | a million input tokens cost the input price, a million output tokens the output price, and costs add up |
| SingleFlight.AdmittedIff | src/catchain/extraction/llm/workflow.py:136-167 | a call is admitted iff pages, fields, budgets and ceiling are in order |
| SingleFlight.RefusedBecause | src/catchain/extraction/llm/workflow.py:137-167 | otherwise refused for the first reason that applies |
| SingleFlight.SameKeyIff | src/catchain/extraction/llm/workflow.py:168-208 | two admitted calls share a cache entry iff document, project, registry, provider, model, fields, pages, output budget and prices are the same |
| SingleFlight.GroundedEntryReads | src/catchain/extraction/llm/workflow.py:68-106 | an entry built from a grounded reply is accepted by the cache reader on the same inputs |
| SingleFlight.ReadsBackIff | src/catchain/extraction/llm/workflow.py:68-106 | the reader accepts exactly a succeeded extraction of this document under this configuration, covering its fields, whose spans hold |
| SingleFlight.StepHasEffect | src/catchain/extraction/llm/workflow.py:218-317 | every step of a process changes only that process, its own lock and its own cache entry, in one of four ways |
| SingleFlight.RunKeepsInv | src/catchain/extraction/llm/workflow.py:218-317 | lock ownership, process and log invariants hold after any interleaving with crashes |
| SingleFlight.OneCallInFlight | src/catchain/extraction/llm/workflow.py:225-258 | at most one provider call per cache key is in flight, crashed callers included |
| SingleFlight.PublishedOnceAndFinal | src/catchain/extraction/llm/workflow.py:252-258 | the final link never finds a file, an entry is published at most once and no call for its key starts later |
| SingleFlight.NothingAfterEntry | src/catchain/extraction/llm/workflow.py:218-221 | once an entry is there, found or published, no call is started and nothing published for its key in any continuation |
| SingleFlight.PublishedNeverChanges | src/catchain/extraction/llm/workflow.py:109-119 | a published entry keeps its content through every continuation |
| SingleFlight.OutcomesSound | src/catchain/extraction/llm/workflow.py:218-221 | whatever files were found: a returning process reports a conflict iff the file found under its key does not read back, and what it reuses does |
| SingleFlight.PublishedReadBack | src/catchain/extraction/llm/workflow.py:68-119 | every entry published in a run reads back, and every file found at its start stays as it was |
| SingleFlight.AdmittedCallMayStart | src/catchain/extraction/llm/workflow.py:136-167 | a call that passes the request checks is a process the run theorems are about |
| SingleFlight.AtMostOneCallEach | src/catchain/extraction/llm/workflow.py:256-258 | one invocation starts at most one provider call |
| SingleFlight.AbandonedLockOnlyBlocks | src/catchain/extraction/llm/workflow.py:225-228 | after a leaked lock nothing is called or published for its key and readers see the same |
| SingleFlight.CrashedHolderAbandons | src/catchain/extraction/llm/workflow.py:315-316 | a holder that crashes leaves its lock abandoned |
| PaidCalls.EntriesAreEarned | src/catchain/extraction/llm/workflow.py:256-300 | in every run each new entry, and that of each process that says it published, is what grounding makes of one complete valid reply a process of its key received |
| PaidCalls.SmoothCallEnds | src/catchain/extraction/llm/workflow.py:218-317 | a call nothing goes wrong for ends busy iff it met the lock, with the found entry or a conflict iff it met an entry, and otherwise published its own |
| PaidCalls.FailureIsFinal | src/catchain/extraction/llm/workflow.py:256-317 | a failing step under the lock, an incomplete or ungroundable reply or a late failure ends the call as failed, whatever follows |
| PaidCalls.LoneCallPublishes | src/catchain/extraction/llm/workflow.py:218-317 | alone and with nothing in its way a call publishes after nine steps and leaves the locks as they were |
| PaidCalls.FailedSetUpAbandons | src/catchain/extraction/llm/workflow.py:229-250 | a failure while setting up leaves the lock abandoned |
| FactStore.FactStore.AddVersion | src/catchain/storage/database.py:35-52 | adds the row iff identifier, source and content uniqueness allow it, else changes nothing |
| FactStore.FactStore.AddParsed | src/catchain/storage/database.py:54-76 | adds the row iff its keys and foreign keys allow it, else changes nothing |
| Store.ChecksFaultIff | src/catchain/storage/fact_repository.py:60-78 | no evidence fault is found iff every reference points at this version and, unless its check is rejected, quotes its page at its offsets |
| FactStore.FactStore.CheckImport | src/catchain/storage/fact_repository.py:33-78 | finds the first reason why the four artefacts are refused, if any; of the evidence, the first faulty reference's first fault |
| FactStore.FactStore.InsertCandidates | src/catchain/storage/fact_repository.py:140-168 | adds exactly one row per check and one per evidence reference under derived identifiers |
| FactStore.FactStore.ImportValidation | src/catchain/storage/fact_repository.py:25-169 | one transaction: exact reuse, new import or refusal; the tables become the specified ones and the invariant is kept |
| FactStore.FactStore.CheckApproval | src/catchain/storage/review_repository.py:101-142 | the outcome of an approval: field, document, validator codes and crediting period in that order |
| FactStore.FactStore.InsertRows | src/catchain/storage/review_repository.py:156-187 | decision, request and for an approval fact, source link and head are written, nothing else |
| FactStore.FactStore.Decide | src/catchain/storage/review_repository.py:31-196 | one transaction: replay, block or record; tables, chains and outcome are the specified ones, every insert meets the database's constraints, the invariant is kept |
| StoreSteps.ApprovalAcceptedIff | src/catchain/storage/review_repository.py:101-142 | an approval passes iff field matches, the value is well-founded in the stored document and the crediting period stays in order |
| StoreSteps.RecordedIff | src/catchain/storage/review_repository.py:39-142 | exactly which requests a sound store records, and that none breaks |
| StoreSteps.ImportKeepsImportSide | src/catchain/storage/fact_repository.py:112-169 | an import keeps reports, candidates and evidence rows in exact correspondence |
| StoreSteps.DecideKeepsReviewSide | src/catchain/storage/review_repository.py:84-187 | a decision keeps decisions, facts, heads, chains and crediting periods sound |
| StoreRuns.RunOk | src/catchain/storage/review_repository.py:156-187 | after any sequence of additions, imports and requests the invariant holds and every row ever written is unaltered |
| StoreRuns.FactsFormOneChain | src/catchain/storage/review_repository.py:84-98 | per scope all facts form one chain from "nothing current" to the head, each recording its predecessor and its value |
| StoreRuns.NoForks | src/catchain/storage/review_repository.py:90-91 | no two facts of a scope replaced the same fact or both started from nothing |
| StoreRuns.FactsStayWellFounded | src/catchain/storage/review_repository.py:104-118 | a canonical fact keeps its row, request and document through all later runs and stays well-founded in them |
| StoreRuns.DecisionsKeepBefore | src/catchain/storage/review_repository.py:84-98 | a decision of any outcome keeps, through all later runs, the value of the fact that was current when it was made, or null if there was none |
| StoreRuns.CanonicalValues | src/catchain/validation/extraction.py:18-75 | what may be canonical, field by field: type, sign, date text and unit; nothing for fields whose contract is open |
| StoreRuns.FitsIffCanonical | src/catchain/validation/extraction.py:132-180 | a value fits its field iff it is of that type, sign and unit or such a date text |
| StoreRuns.CreditingPeriodsInOrder | src/catchain/storage/review_repository.py:119-142 | with heads for both ends of a crediting period both values are date texts and the start is not after the end as a text (ASCII digits) |
| StoreRuns.DecideRecordsIff | src/catchain/storage/review_repository.py:39-142 | on reachable stores: records iff new, about a stored candidate, naming the current fact and, to approve, of the candidate's field, well-founded and keeping the period in order; never breaks |
| StoreRuns.DecisionReplays | src/catchain/storage/review_repository.py:39-53 | at any later time a recorded request replays to the same fact and changes nothing; another payload under its identifier is refused |
| StoreRuns.ImportReplays | src/catchain/storage/fact_repository.py:82-127 | at any later time an import replays as exact reuse and no other payload under its run identifier is accepted |
| StoreLaws.CandidatesAreChecks | src/catchain/storage/fact_repository.py:140-168 | on reachable stores candidate and evidence rows are the checks of the stored reports and their references, field by field |
| StoreLaws.EveryCandidateIsACheck | src/catchain/storage/fact_repository.py:140-156 | and no candidate row stands for anything else |
| StoreLaws.ReportsAreProven | src/catchain/storage/fact_repository.py:33-59 | every stored report is of a succeeded validation of its stored document and agrees with a succeeded extraction of the same text |
| StoreLaws.DocumentsAreUnique | src/catchain/storage/document_repository.py:44-121 | no version or parsed document is stored twice with the same content |
| StoreLaws.DocumentRowsAdded | src/catchain/storage/document_repository.py:44-121 | document rows are added exactly if new, referring to stored rows and unlike any stored content |
| StoreLaws.ImportIsAcceptedIff | src/catchain/storage/fact_repository.py:33-127 | which imports are new, repeated or refused, and for which reason; evidence at its first faulty reference |
| StoreLaws.EarlyRefusals | src/catchain/storage/review_repository.py:39-88 | invalid, repeated, conflicting, unknown and stale requests, each iff its condition |
| StoreLaws.ApprovalRefusedBecause | src/catchain/storage/review_repository.py:100-142 | an up-to-date approval is refused for its field, for exactly the codes its value deserves and no reviewer may override, or for the period, in this order |
| StoreLaws.DecisionWrites | src/catchain/storage/review_repository.py:144-190 | a recorded decision adds its stamped row, an approval its fact, link and head; nothing else changes |
| StoreLaws.DecisionsAreAttributed | src/catchain/domain/review.py:12-32 | every decision has a reviewer and a reason, and exactly the authorised ones are approvals with a fact |
| Readiness.JoinNeverDrops | src/catchain/scoring/readiness.py:31-84 | the join yields every head of a sound store, for that head, and the provenance check holds |
| Readiness.PresentOrAbsent | src/catchain/scoring/readiness.py:106-107 | available and missing inputs partition a rule's inputs by whether they have a fact |
| Readiness.ProjectReadiness | src/catchain/scoring/readiness.py:25-145 | fails for a blank project only; facts are exactly the project's heads, with the twelve dimensions and the scope flag computed from them |
| Readiness.AuditedFactsSound | src/catchain/scoring/readiness.py:68-102 | every audited fact fits its field and its evidence is in the document named beside it |
| Readiness.AuditedFactsTell | src/catchain/scoring/readiness.py:31-102 | every audited fact tells its decision, candidate, runs, extractor, document, version, digest, source and URL as the tables have them |
| BusinessChecks.CheckGates | src/catchain/scoring/business_checks.py:21-64 | the gates in the order and as often as they are appended; as a set exactly the raised ones |
| BusinessChecks.GateListRaised | src/catchain/scoring/business_checks.py:26-64 | a gate is in that list iff its own condition raises it |
| BusinessChecks.ContextGroundedIff | src/catchain/scoring/business_checks.py:46-64 | context evidence is accepted iff it is exact text of a document some fact was read from |
| BusinessChecks.NoGatesIff | src/catchain/scoring/business_checks.py:26-64 | there is no gate iff methodology, version and authority are confirmed and the context binds and quotes the facts there are |
| BusinessChecks.DimensionBlockedIff | src/catchain/scoring/business_checks.py:65-85 | a dimension is blocked iff by a gate, an input without a fact or an unbound period |
| BusinessChecks.CheckBusinessInputs | src/catchain/scoring/business_checks.py:17-137 | gates, per-dimension status and the diagnostic are the specified ones |
| BusinessChecks.Diagnose | src/catchain/scoring/business_checks.py:86-117 | blocked, not numeric or computed; a computed one has the 38-digit values and percentage, and no percentage exactly when reported is zero |
| BusinessChecks.DiagnosisMeans | src/catchain/scoring/business_checks.py:95-117 | withheld iff a gate, an unbound period or a missing amount; otherwise computed iff all four amounts are non-negative numbers in tonnes |
| BusinessChecks.NoGateMeansAllAmounts | src/catchain/scoring/business_checks.py:42-44 | with no gate and the ER period bound all four amounts have facts |
| BusinessChecks.DiagnosticAlwaysComputed | src/catchain/scoring/business_checks.py:95-117 | on a sound store the unit/number fallback is unreachable and without gates the diagnostic is computed |
| BusinessChecks.DiagnosticCloses | src/catchain/scoring/business_checks.py:95-117 | on a reachable store, without gates and with D08 bound: computed, reported is recalculated plus residual within the 38-digit bound, no percentage iff reported is zero, and otherwise one that is the residual's share within its own bound |
| BusinessChecks.IdentityCloses | src/catchain/scoring/business_checks.py:104-108 | reported is recalculated plus residual up to half a unit in the 38th digit, exactly when no rounding occurs |
| BusinessChecks.RecalculationError | src/catchain/scoring/business_checks.py:101-103 | BE - PE - LE is off by at most the two half-unit roundings |
| BusinessChecks.RecalculationExact | src/catchain/scoring/business_checks.py:101-103 | it is exact when both differences fit 38 digits |
| Decimals.RoundError | src/catchain/scoring/business_checks.py:100-104 | rounding to 38 digits errs by at most half a unit in the last kept digit, in any unit, hence for every form of the number |
| Division.DivideClose | src/catchain/scoring/business_checks.py:109 | a 38-digit quotient, exact or not, is the true one up to half a unit in the last kept digit, seen in any unit |
| Division.PercentageClose | src/catchain/scoring/business_checks.py:109 | the published percentage times the reported amount is a hundred times the residual up to half a unit in its last digit: the second rounding loses nothing |
| Timestamps.IsoOrderIsTimeOrder | src/catchain/jobs/worker.py:66-70 | for UTC times text order of `isoformat()` is time order, with and without the microsecond part |
| Jobs.NextAttempt | src/catchain/jobs/retry.py:21-27 | retries iff below the limit and not permanent, with the smaller of the two delays |
| Jobs.DelaysGrow | src/catchain/jobs/retry.py:26-27 | later attempts never wait less |
| Jobs.FailureMeans | src/catchain/jobs/worker.py:97-125 | a failed job is retried after the smaller of cap and doubled delay iff below the limit and not permanent, else a dead letter; the rest of the row and all other rows stay |
| Jobs.ClaimAndSuccessMean | src/catchain/jobs/worker.py:76-95 | a claim changes one status, a success one status and error |
| Timestamps.AddSecondsFailsIff | src/catchain/jobs/worker.py:109 | a retry time fails exactly past year 9999 |
| Jobs.FirstDueIsOldestInTime | src/catchain/jobs/worker.py:64-71 | the claim query picks, in terms of time, a due job never before its retry time and no due job is older |
| Jobs.FindFirstDue | src/catchain/jobs/worker.py:64-73 | the scan finds a first due job, or there is no due job at all |
| Jobs.JobStore.Enqueue | src/catchain/jobs/worker.py:23-58 | a known kind and identity returns its row unchanged, a new one adds one pending row |
| Jobs.JobStore.ClaimNext | src/catchain/jobs/worker.py:60-87 | claims a first due job and changes only its status, or finds none due and changes nothing |
| Jobs.JobStore.MarkSucceeded | src/catchain/jobs/worker.py:89-95 | only that row becomes succeeded with its error cleared; an unknown job changes nothing |
| Jobs.JobStore.MarkFailed | src/catchain/jobs/worker.py:97-125 | attempts come from the caller's copy; retry or dead letter, retry time and error are written, or nothing on an error |
| JobRuns.StepKeepsExclusive | src/catchain/jobs/worker.py:60-125 | every event, split claims included, keeps jobs exclusive |
| JobRuns.NoSharedJob | src/catchain/jobs/worker.py:76-84 | in no run do two workers hold one job |
| JobRuns.WorkerStepsMean | src/catchain/jobs/worker.py:60-95 | what a claim, its read and update, and a success change, each exactly when it can happen |
| JobCounts.AttemptsAreFailuresIff | src/catchain/jobs/worker.py:97-121 | in every run, claims split or not: attempts equals recorded failures iff each was made with an up-to-date copy; a waiting retry is below the limit and claims are failures plus the active one, unconditionally |
| JobCounts.FreshClaimsBounded | src/catchain/jobs/worker.py:60-121 | with up-to-date copies no job is claimed more often than the policy's limit |
| JobCounts.AttemptsAreFailures | src/catchain/jobs/worker.py:60-121 | with one-transaction claims: attempts equals failures, a waiting retry is below the limit, no job is claimed more often than the limit |
| JobCounts.AtomicIsFresh | src/catchain/jobs/worker.py:60-87 | one-transaction claims only ever hand out and write back up-to-date copies |
| JobRuns.ClaimsRespectTime | src/catchain/jobs/worker.py:60-87 | a one-transaction claim is never early and never skips an older due job |
| SplitClaims.ReadOf | src/catchain/jobs/worker.py:62-73 | every outstanding read was a query that found the first due row, and its worker has not updated since |
| SplitClaims.GrantedCopyFreshIff | src/catchain/jobs/worker.py:76-87 | in every run the granted copy has the row's attempts iff no failure of the job was recorded since its read or the latest one since was made with a copy of one attempt less; iff there was none as long as all its failures were made with up-to-date copies |
| SplitClaims.GrantedJobDueIff | src/catchain/jobs/worker.py:62-87 | with positive delays and clocks that do not run backwards, the granted job is due at the claim's time iff no failure of it was recorded since the read; then it is the oldest job due at the read, otherwise its retry time is later |
| SplitWitness.SplitClaimLosesAttempts | src/catchain/jobs/worker.py:64-84 | a run of split claims that claims a job before its retry time and forgets a failure |
| SplitWitness.StaleCopyCanLookFresh | src/catchain/jobs/worker.py:64-118 | after a stale copy was written back, a copy can have the row's attempts although a failure was recorded since its read |
| SplitWitness.SplitClaimsExceedLimit | src/catchain/jobs/worker.py:64-84 | a run of split claims with three claims where the policy allows two |
| RowLimits.RowLimitHolds | src/catchain/jobs/worker.py:97-121 | a policy limit no larger than the row's own keeps one-transaction runs within the row's |
| RowLimits.RowLimitExceeded | src/catchain/jobs/worker.py:97-121 | any larger policy limit exceeds the row's own in some one-transaction run whose retry times do not overflow |
| RowLimits.OneAttemptGrantedTwice | src/catchain/jobs/worker.py:106-118 | under the default policy a row that allows one attempt is granted twice |
| Heaps.HeapPush | src/catchain/dataset/sampling.py:35-36 | adds one element and keeps the heap order |
| Heaps.HeapReplace | src/catchain/dataset/sampling.py:37-38 | replaces the least element and keeps the heap order |
| Sampling.StreamGreatest | src/catchain/dataset/sampling.py:32-38 | the bounded heap holds what sorting all rows and taking the greatest would |
| Sampling.SortAndTakeIsGreatest | src/catchain/dataset/sampling.py:32-38 | sort-and-take is the reference: nothing left out is greater than anything kept |
| Sampling.SampleManifest | src/catchain/dataset/sampling.py:18-81 | errors iff counts are bad or rows too few; otherwise the splits, counts and header totals of the selection |
| Sampling.OrderIndependent | src/catchain/dataset/sampling.py:33-44 | the selection ignores the order of the manifest |
| Sampling.SamplesAreNested | src/catchain/dataset/sampling.py:33-44 | a smaller sample is contained in a larger one |
| Sampling.SelectedRankFirst | src/catchain/dataset/sampling.py:33-44 | nothing outside the selection has a smaller rank than anything in it |
| Sampling.SelectedInOrder | src/catchain/dataset/sampling.py:41-44 | the selection is listed by rank and, between equal ranks, by path |
| Sampling.SplitsPartitionSelection | src/catchain/dataset/sampling.py:45-56 | the splits have the requested sizes and in order are the selection |
| Sampling.SplitsShareNoPath | src/catchain/dataset/sampling.py:45-56 | with one row per path no path is selected twice |
| ReviewQueue.Priority | src/catchain/review_queue.py:46-71 | level, score and reasons follow from status and codes; the reasons are never empty |
| ReviewQueue.MoreIssuesNeverLower | src/catchain/review_queue.py:46-71 | another issue never lowers a candidate's score |
| ReviewQueue.PriorityOfValidated | src/catchain/review_queue.py:46-71 | for checks the validator made, critical means rejected, missing or in conflict, and low is never used |
| ReviewQueue.HighRiskByName | src/catchain/review_queue.py:36-57 | a code is high risk iff its name has one of the five prefixes |
| ReviewQueue.LatestDecision | src/catchain/review_queue.py:81-90 | the number of decisions and one that no other is later than |
| ReviewQueue.EvidenceIsTheObservations | src/catchain/review_queue.py:102-119 | on a sound store the ordered evidence rows of an item are the evidence of its candidate's observation |
| ReviewQueue.ItemFromRow | src/catchain/review_queue.py:93-148 | the item shows its candidate as the tables have it, or the candidate is approved and not asked for |
| ReviewQueue.BuildReviewQueue | src/catchain/review_queue.py:151-196 | error iff the limit is below one; otherwise ordered with ties by observation index, one item per asked-for candidate, a limit keeps a dominating prefix, and the counters count what is shown |
| ReviewQueue.BuildReviewMetrics | src/catchain/review_queue.py:199-274 | counts and shares of the tables and the average latency of the decisions that have one; a KeyError exactly when a decided candidate has no row |
| ReviewLaws.QueueStandsInOrder | src/catchain/review_queue.py:165-183 | highest score first, then project, field and observation index; a limit keeps the front |
| ReviewLaws.CandidateCountsMean | src/catchain/review_queue.py:244-251 | total and counts by status are numbers of candidates with a report |
| ReviewLaws.DecisionCountsMean | src/catchain/review_queue.py:245-272 | decisions, outcomes, reviewed, pending and reworked candidates are numbers of rows |
| ReviewLaws.RatesMean | src/catchain/review_queue.py:255-271 | each rate is the part of its whole it is named for |
| ReviewQueue.AverageIsBetween | src/catchain/review_queue.py:226-272 | the average review latency lies between any bounds of the latencies it averages, whatever the order of the decisions |
| ReviewQueue.QueueMatchesMetrics | src/catchain/review_queue.py:178-272 | the queue lists exactly the pending candidates, and pending plus latest-approved is everything |
| ReviewQueue.DistinctTimesSettle | src/catchain/review_queue.py:81-90 | decisions at distinct times leave no doubt about a candidate's state |
| ReviewQueue.PendingDeterminedIff | src/catchain/review_queue.py:220-254 | the tables determine the pending count iff no candidate's latest decisions, made at one instant, disagree about approval |
| ReviewQueue.RatesAreShares | src/catchain/review_queue.py:255-272 | every rate is between zero and one |
| ReviewQueue.CandidatesAddUp | src/catchain/review_queue.py:244-249 | candidates by validation status add up to all candidates |
| ReviewQueue.DecisionsAddUp | src/catchain/review_queue.py:247-248 | decisions by outcome add up to all decisions |
| ReviewQueue.ReachableStoreHasMetrics | src/catchain/review_queue.py:263-269 | on reachable stores no KeyError, and every stored candidate is counted |
| Sync.RunSync | src/catchain/sync/service.py:45-109 | one failing project never stops the next; report and recorded row are the specified ones |
| Sync.ListedPlusFailedIsDiscovered | src/catchain/sync/service.py:83-100 | after a successful discovery listed plus failed projects are the discovered ones |
| Sync.DocumentsOfListed | src/catchain/sync/service.py:83-86 | the report's documents are exactly those of the projects that were listed |
| Sync.DocumentsInPageOrder | src/catchain/sync/service.py:83-86 | documents stand in the order of the page |
| Sync.FailuresInPageOrder | src/catchain/sync/service.py:87-100 | failures stand in the order of the page |
| Sync.StatusMeans | src/catchain/sync/service.py:33-39 | succeeded iff fully listed; failed iff discovery failed or a failed project is named `registry` |
| Sync.ProjectNamedRegistryFails | src/catchain/sync/service.py:36-39 | a run whose unlisted project is named `registry` is failed, the same run under another name partial |
| Sync.SyncRepository.LoadCheckpoint | src/catchain/storage/sync_repository.py:37-44 | the stored cursor, or none |
| Sync.SyncRepository.RecordRun | src/catchain/storage/sync_repository.py:46-105 | appends the row and replaces the checkpoint; the cursor moves only without failures |
| Sync.ChainKeptIff | src/catchain/storage/sync_repository.py:58-104 | recording keeps the chain iff the run started from the stored cursor |
| Sync.RunsChain | src/catchain/storage/sync_repository.py:58-104 | when every run starts from the loaded checkpoint, each row starts where the registry's previous one ended |
| Sync.CursorMovesOnlyWhenListed | src/catchain/storage/sync_repository.py:58-63 | a row's cursor is the page's next one iff every project was listed, else the old one; its counts are those of the page |
| Sync.CheckpointIsLastRow | src/catchain/storage/sync_repository.py:84-104 | a checkpoint is the copy of its registry's latest row |
| Sync.CursorIsPathOfListedPages | src/catchain/storage/sync_repository.py:58-104 | the stored cursor is the end of an unbroken path of pages whose every project was listed |
| Sync.OverlapMovesCursorBack | src/catchain/storage/sync_repository.py:58-104 | overlapping runs can move the checkpoint back over a passed page |
| Artifacts.ArtifactStore.StoreBaselineArtifact | src/catchain/storage/baseline_artifacts.py:22-70 | after any history, and with anything other writers do between check and link, the call is a schedule of the protocol with its files and outcome; no file is altered, one is at the path, and the outcome is the own new bundle or what that file is worth |
| Artifacts.StoredRun | src/catchain/storage/baseline_artifacts.py:52-70 | where the steps of one call lead when the file is found, when the race is lost and when it is won |
| Artifacts.ReuseDependsOnIdentity | src/catchain/storage/baseline_artifacts.py:34-50 | callers of one identity get the same answer from a stored file |
| Artifacts.WrittenReusableIff | src/catchain/storage/baseline_artifacts.py:34-50 | a bundle written under an identity is reusable under it iff it succeeded and names its own run |
| Artifacts.SameIdentityIff | src/catchain/storage/baseline_artifacts.py:16-30 | two calls write to one path iff their results agree but for run and creation time and their runs in hashes and stage |
| Artifacts.ReusableIff | src/catchain/storage/baseline_artifacts.py:34-50 | a file is reused iff it is a succeeded bundle naming its own run that agrees likewise |
| Artifacts.RunKeepsInv | src/catchain/storage/baseline_artifacts.py:52-70 | for any writers and interleaving, files and what each writer relies on stay consistent |
| Artifacts.FilesNeverChange | src/catchain/storage/baseline_artifacts.py:63-66 | a published file never changes afterwards |
| Artifacts.AtMostOneNew | src/catchain/storage/baseline_artifacts.py:63-70 | of the writers of one identity at most one returns not-reused |
| Artifacts.ExactlyOneNew | src/catchain/storage/baseline_artifacts.py:63-70 | once all writers of a new identity have returned, exactly one returned not-reused, and it wrote the file |
| Artifacts.EveryoneGetsOneBundle | src/catchain/storage/baseline_artifacts.py:16-50 | self-consistent writers never conflict and get one bundle equal to their own up to run and creation time |
| Artifacts.ConflictIff | src/catchain/storage/baseline_artifacts.py:34-50 | a writer conflicts iff the found file, or the first writer's bundle, is not reusable |
| Snapshots.RetriesAtMostOnce | src/catchain/review_queue.py:277-313 | however writers interleave, the recursion happens at most once |
| Snapshots.NewSnapshotsNeverConflict | src/catchain/review_queue.py:277-313 | a writer of a new snapshot always gets its path, and the file holds its snapshot up to the generation time |
| Snapshots.OutcomesMean | src/catchain/review_queue.py:277-313 | broken iff an unreadable file was found, a conflict iff one of another snapshot was |
| Snapshots.LoneWriter | src/catchain/review_queue.py:277-313 | a writer by itself stores its snapshot, or gets what the file found there is worth |
| Consistency.ValidateProject | src/catchain/validation/consistency.py:39-200 | the loops build the specified report, or refuse empty, duplicate or mixed inputs |
| Consistency.ReportAlwaysAccepted | src/catchain/domain/consistency.py:48-63 | on valid inputs every report that is built passes the report model's link checks |
| Consistency.OrderOfInputsIrrelevant | src/catchain/validation/consistency.py:46-53 | permuting the inputs changes neither report nor refusal |
| Consistency.DeadChecksDoNotInterfere | src/catchain/validation/consistency.py:63-82 | the contents of rejected and abstaining checks change neither findings nor the comparison flag |
| Consistency.ReversedIff | src/catchain/validation/consistency.py:85-121 | reversed dates are reported iff the live candidates settle on a start after the end (dates in ASCII digits) |
| Consistency.IncompleteIff | src/catchain/validation/consistency.py:87-101 | a pair is incomplete or conflicting iff there are live candidates that do not settle on both ends |
| Consistency.NotEvaluableIff | src/catchain/validation/consistency.py:102-114 | not evaluable iff the live candidates settle on both ends and one is no calendar date |
| Consistency.ApplicabilityIff | src/catchain/validation/consistency.py:122-140 | reported iff the flag settles on false and the value on a nonzero number |
| Consistency.EnergyIff | src/catchain/validation/consistency.py:141-150 | reported iff both energy amounts settle, on different units |
| Consistency.MethodologyIff | src/catchain/validation/consistency.py:151-160 | the methodology is confirmed iff there are live candidates and all say ACM0002 |
| Consistency.DifferenceIff | src/catchain/validation/consistency.py:162-192 | a project-level difference is reported iff two inputs have candidates that do not match |
| Consistency.DifferenceCodeIff | src/catchain/validation/consistency.py:177-192 | across documents iff two sources take part, else across versions iff two versions do, else between extractors |
| ConsistencyLaws.ComparedIff | src/catchain/validation/consistency.py:161-168 | the comparison flag is set iff some descriptive field has candidates from two document versions |
| ConsistencyLaws.FindingsAre | src/catchain/validation/consistency.py:85-192 | a report holds exactly the findings of its five pairs per input, of the methodology and of its fifteen descriptive fields |
| ConsistencyLaws.ActiveAreLive | src/catchain/validation/consistency.py:63-77 | the candidates of a field are its live checks, each once and in order |
| ConsistencyLaws.PairsNameTheirCandidates | src/catchain/validation/consistency.py:85-150 | a finding about a pair names both fields and all their candidates |
| ConsistencyLaws.ProjectFindingsNameTheirCandidates | src/catchain/validation/consistency.py:151-192 | a finding across inputs names its field and all its candidates |
| ConsistencyLaws.OutcomeMeans | src/catchain/validation/consistency.py:39-53 | no report iff there are no inputs, one run twice or two projects; otherwise one of that project over the inputs in run order |
| Gold.EvaluateAgainstGold | src/catchain/extraction/gold_evaluation.py:13-93 | one row per label from the grouped observations, with the metrics and the evidence coverage of those rows |
| GoldLaws.EvaluationMeans | src/catchain/extraction/gold_evaluation.py:16-57 | which samples are evaluated, and each row: the outcome its label and valued candidates call for, and their numbers |
| GoldLaws.CountsAreNumbers | src/catchain/extraction/gold_evaluation.py:58-84 | each count is the number of rows of its kind |
| GoldLaws.RatesMean | src/catchain/extraction/gold_evaluation.py:66-84 | each rate is its part of its whole |
| Gold.EvaluationConserves | src/catchain/extraction/gold_evaluation.py:29-57 | every label is counted once; agreement is exact matches on confirmed plus abstentions on unknown |
| Gold.AggregateIsTotal | src/catchain/extraction/gold_evaluation.py:96-155 | aggregation succeeds iff the reports are complete, unrepeated and of this dataset; its counts are their total |
| GoldLaws.AggregateRefusedBecause | src/catchain/extraction/gold_evaluation.py:103-118 | the four refusals of an aggregation, each iff its condition |
| GoldLaws.SampleIdsInOrder | src/catchain/extraction/gold_evaluation.py:105-112 | an aggregate names exactly the selected samples, in order |
| Gold.AggregateConserves | src/catchain/extraction/gold_evaluation.py:119-145 | aggregates of evaluated reports conserve the counts |
| Gold.ConservedIff | src/catchain/extraction/gold_evaluation.py:119-145 | for arbitrary rows the counts are conserved iff every agreement is of its label's own kind |
| Gold.ReportOrderIrrelevant | src/catchain/extraction/gold_evaluation.py:107-118 | the order of the reports is irrelevant, to a refusal as well |
| Gold.SplitsAddUp | src/catchain/extraction/gold_evaluation.py:96-155 | the counts of a dataset are the sum of the counts of its three splits |
| Gold.ConservedRates | src/catchain/extraction/gold_evaluation.py:126-145 | conserved counts give rates between zero and one |

## Left out

- The HTTP and command-line layers, the provider transport, PDF and OCR parsing, the regular-expression rules and registry adapters: foreign libraries or thin mapping.
- fsync, temporary files, run directories and their JSON records: only atomic link, atomic mkdir and transaction atomicity are kept.
- Recovery from a leaked lock: the code has no lease, so only safety is stated.
- `extract_one_call` is a state machine of steps instead of one method, because its guarantees are about interleaved processes; the text of its error records is not modelled.
- The rules and rows of `compare_extraction` beyond its evidence loop, and its baseline run.
- `judgments.py`, `evaluation_repository.py`, ingestion and the object store: smaller repeats of grounding, replay and publish-once.
- FactStore.FactStore.Decide: an exception other than a block is the one outcome `Broken`, proved unreachable on reachable stores.
- Decimal exponents beyond the context's limits of about one million.
- Sampling.SampleManifest: no two different rows of one path in a manifest, as `build_manifest` writes it (src/catchain/dataset/manifest.py:80-97, one row per file); in a hand-made one the tuple comparison of such rows raises a TypeError, if the heap happens to compare them. The rank function is arbitrary, not a digest.
- Sampling.StreamGreatest: as for `SampleManifest`.
- Jobs.NextAttempt: delays and bounds are not negative.
- JobCounts.AttemptsAreFailures: for claims in one transaction; what holds for split claims is `AttemptsAreFailuresIff`.
- JobRuns.ClaimsRespectTime: for claims in one transaction; what holds for split claims is `SplitClaims.GrantedJobDueIff`.
- RowLimits.RowLimitExceeded: the run fails at the moment of each claim, so only its retry times can pass year 9999.
- ReviewQueue.BuildReviewQueue: items that tie on score, project and field stand in the order of their observation index; between equal indices the order is the database's.
- ReviewQueue.QueueMatchesMetrics: latest decisions of one candidate made at the same instant must not disagree about approval, which is exactly when the count is determined (`PendingDeterminedIff`); distinct times suffice (`DistinctTimesSettle`).
- Sync.RunSync: an exception arrives as its code and message; `latest_run`, which orders by finishing time, is not modelled.
- Artifacts.ArtifactStore.StoreBaselineArtifact: nested JSON values are flat scalars.
- Validation.NoKindIssuesIffFits: a date in other than ASCII digits is reported as of unresolved format, where the source finds it absent from the calendar.
- Consistency.ValidateProject: inputs carry only the report and its source; the other metadata is never read by the checks.
- Gold.EvaluateAgainstGold: reviewers, adjudicator and timestamps of labels are not modelled.
- Gold.AggregateIsTotal: report rows have all their keys; missing keys in hand-made reports are not modelled.
- Negative zero, NaN and infinities, and the digits of rates as floats.
