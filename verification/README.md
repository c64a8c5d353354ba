# Verification model of the write-audit-publish framework

This project models the reconciliation pipeline in Dafny and proves what it guarantees over every
interleaving of concurrent invocations, with a fault possible at every statement and commit.

`ReconciliationPipeline.run` stages a payload, reads it back, resolves a reference, evaluates
assertions, and either promotes the staged payload or queues the run for review; every early end
goes through `_errored`. The state is four tables (`staging.records`, `published.records`,
`wap_audit_log`, `wap_review_queue`) with their unique constraints and the view
`published.latest_by_dataset`, which feeds published data back as the next reference.

How the modules divide the system:

- `Protocol` is the state machine: the tables, an open transaction (pending rows and a share lock)
  and a program counter per invocation, one step per SQL statement or commit. A run of the system is
  any sequence of launches, steps and staging deletions. An oracle chooses faults, lost
  acknowledgements of a commit, clock readings, the row a tied view returns, and the answers of an
  external reference source. Rows carry the invocation that wrote them (`writer`), which the tables
  themselves do not; it is only used to state properties.
- `Pipeline` has `run` and its parts in the form the source has them, methods on a shared `Database`
  whose fields they update. They take a script as input (`Scripts`): for each statement the events of
  others that happen before it, and its fault, clock reading and the rest of its oracle. The events of a
  call are then a function of the script, each statement and commit is checked against `Protocol`, and
  the theorems about event sequences hold of the methods.
- `Causes` says why an invocation ended as it did and what its rows hold, field by field; `Completion`
  what an invocation without faults comes to while others run beside it.
- `Invariants`, `Evidence`, `Accounting`, `Outcomes`, `Snapshots`, `History`, `Compounding`, `Atomicity`,
  `Progress`, `Traces` and `Limits` hold the other properties of the protocol. `Limits` has the
  counterexamples.
- `Models`, `StagingRef`, `FxReconciliation`, `RowCount`, `Distribution`, `Migrations` and `Pool`
  model the file their header names. `Json`, `Wrappers` and `RealMath` are support.

What the proofs found, where the code gives less than its comments say:

- "Every terminal outcome writes exactly one audit row" (core/pipeline.py:13-21) does not hold: a
  database error in `promote` or `route` that is not a unique violation is re-raised and leaves `run`
  without an audit row (`Limits.DatabaseErrorLeavesNoAudit`), and `_errored` swallows the failure of
  its own write (`Limits.ErroredMayLackAudit`). An invocation has an audit row if and only if one of
  the events is the commit of one of its three outcomes and that commit reached the server
  (`Accounting.AuditedIffCommitReached`). Without any fault of its own it has one if and only if it
  returned and Postgres casts its run_id, and it raises exactly for an empty assertion list, a run_id
  the writer factory rejects, a snapshot that is no dict, or a raising assertion with an empty name
  (`Accounting.FaultFreeRunsAreAudited`).
- A commit can be durable although its acknowledgement is lost. A run that raised can then have its
  audit row (`Limits.LostAcknowledgementLeavesAudit`), and so can an ERRORED run whose audit commit
  was not acknowledged (`Limits.ErroredMayLackAudit`).
- Python's `UUID` accepts hyphens anywhere, Postgres only after groups of four digits. A run_id in
  between passes the writer factory, and then neither the staging insert nor any audit insert can
  succeed: the run returns ERRORED and leaves no audit row, without any fault
  (`Limits.UncastRunIdLeavesNoAudit`, `StagingRef.LeadingHyphenIsNotCast`).
- "The payload that assertions ran against is exactly the payload that gets promoted"
  (core/publisher.py:34-35) holds whenever the runs that stage under one key and one run_id, spelled
  alike, submit the same data (`Outcomes.PayloadIntegrity`), in particular when no two of them share a
  run_id (`Outcomes.UnsharedIsConsistent`). For every two usable requests with one key, one run_id and
  different data, the first passing, it can fail (`Limits.ReuseCanPublishUnseenData`).
- `required_keys` never enters the FX verdict. A passing check guarantees the required keys exactly
  when the reference has them (`FxReconciliation.RequiredKeysHoldOnlyThroughReference`).
- `published_at` is read before the transaction starts, so "the latest record" need not be the last
  committed one. It is so in every state of a run if and only if it is at the start and every record
  of the dataset committed since is stamped above all before it
  (`Snapshots.ViewIsLastIffIncreasing`). Publishes that do not overlap, with increasing clock
  readings, ensure that (`Snapshots.LatestIsLastCommitted`). Increasing readings alone are not enough
  (`Limits.OverlapCanHideLastCommitted`), nor is the absence of overlap
  (`Limits.ClockCanHideLastCommitted`).
- Every UUID has, beside its standard spelling, a second accepted one with another staging_ref
  (`StagingRef.MovedHyphensSplitTheIndexes`), so the primary key and the (dataset_key, run_id) index of
  staging do not reject the same rows in general. Standard spellings are enough for that
  (`StagingRef.IndexesAgree`).
- In percentage mode a negative reference count lets every load pass that the zero-row guard lets through
  (`RowCount.PercentAcceptance`).
- `_get_pool` returns None to a caller if and only if, between the caller's sight of a pool and its
  unlocked read to return it, `close_pool` emptied the variable and nobody rebuilt the pool
  (`Pool.NoneIffClosedInBetween`).

## Model

| member | source | states |
|---|---|---|
| Pipeline.Database.Run | core/pipeline.py:113-233 | the events of the call are exactly those of the script, with the faults and readings it gives; it raises if and only if the request was rejected or a statement raised, which without faults means a snapshot that is no dict or a raising assertion with an empty name; a result has the fields of the request, an ERRORED one the error of the refused statement; and a proper request with a reference, a run_id of its own, no fault and no deletion of its row is published if its assertions all pass on its data and queued otherwise, with its rows field by field, whatever the others do |
| Pipeline.Database.Answer | core/pipeline.py:271-320 | the RunResult names the outcome, report and refs of the finished invocation, and exactly the rows of that outcome are committed; None exactly when run raised |
| Pipeline.Database.Write | backends/postgres/staging_writer.py:116-162 | success means the invocation's own row is in staging under its staging_ref with the payload submitted; a refused key or payload, a database error or a run_id that is not cast is always a StagingWriteError, any other exception past the validators leaves run |
| Pipeline.Database.FinishWrite | backends/postgres/staging_writer.py:140-160 | the commit puts the pending row into staging; its fault alone decides how it ends, a database error being a StagingWriteError whether or not the row is there |
| Pipeline.Database.Read | backends/postgres/staging_writer.py:164-200 | success gives the row stored under the staging_ref at that moment, and comes exactly if the run_id has the 36-character form, the row is there and nothing failed; a database error is a StagingWriteError |
| Pipeline.Database.Resolve | core/reference_source.py:92-131 | a database error is always a ReferenceResolutionError, and so is a key without rows; otherwise an external answer is taken as it is, and a snapshot reference is the dict of a row the view shows for the key at that moment, or dict raises on it |
| Pipeline.Database.ResolveSnapshot | core/reference_source.py:104-131 | the query without a fault: refused exactly if the key has no rows, otherwise the dict of a row that the view shows, or dict raises on it |
| Pipeline.Database.Assert | core/pipeline.py:206-233 | the report holds the result of every assertion on the payload read back and the reference, it alone chooses the branch, and the gate of the chosen branch never refuses |
| Pipeline.Database.Promote | core/publisher.py:144-233 | success means the published row and its audit row were just committed together; the only refusal is PublishGateError, everything else leaves run |
| Pipeline.Database.InsertPublished | core/publisher.py:287-313 | from the locked row on: a refusal is PublishGateError, success is the committed publish with its audit row |
| Pipeline.Database.FinishPublish | core/publisher.py:390-401 | past the insert nothing refuses: the publish commits with its audit row or the exception leaves run |
| Pipeline.Database.Route | core/review_queue.py:146-228 | success means the queue row and its audit row were just committed together; the only refusal is ReviewQueueError |
| Pipeline.Database.FinishRoute | core/review_queue.py:355-365 | past the queue insert nothing refuses: the referral commits with its audit row or the exception leaves run |
| Pipeline.Database.Errored | core/pipeline.py:353-423 | the ERRORED path keeps error and report and returns whatever its own audit write does, unless the process dies; it returns with exactly its own audit row, given field by field, if and only if the insert went through and its commit reached the server |
| Pipeline.Database.FinishErrored | core/pipeline.py:439-472 | the commit of the ERRORED audit row: its failure is swallowed, and afterwards the invocation has exactly that row or none, as the commit decided |
| Pipeline.Database.FinishOutcome | backends/postgres/connection.py:149-163 | an acknowledged commit has just appended the rows of the outcome together; a failed one leaves run |
| Pipeline.Database.Acknowledge | core/publisher.py:207 | the acknowledged commit appends the row of the outcome and its audit row as the last rows of their tables |
| Pipeline.Database.Stage | core/pipeline.py:163-218 | the first four steps end at the gate the report chooses, in a refusal, or in an escaping exception |
| Pipeline.Database.Steps | core/pipeline.py:163-233 | a refusal of any step ends as ERRORED with that error (or the process dies), an exception leaves run, and otherwise the run ends published or queued as its report says, with its audit row committed |
| Pipeline.Database.Conclude | core/pipeline.py:218-320 | step 5 ends published if every assertion passed and queued otherwise, both audited, or in the refusal of that gate, or in an escaping exception |
| Pipeline.Database.Settled | core/pipeline.py:271-279 | a finished invocation satisfies the RunResult invariants and has exactly the rows of the outcome it committed |
| Causes.FaultsAreClassified | core/pipeline.py:163-233 | for every statement in every state and every fault: exactly which of them run catches, and which leave it |
| Causes.TablesAfter | backends/postgres/connection.py:149-163 | what each statement does to the tables: nothing, unless it is a commit that reaches the server, acknowledged or not, which then adds exactly the rows of its transaction |
| Causes.RaisedIffStatementRaised | core/pipeline.py:163-233 | over whole runs, run raises if and only if the request was rejected or one of its statements raised: a snapshot that is no dict, an unnamed assertion that raises, a database error in the publish or referral transaction, any other exception up to there, or the death of the process |
| Causes.ErrorIffRefused | core/pipeline.py:175-204 | an invocation has an error if and only if one of its statements was refused; it is of the kind of that statement, with the clock reading taken then |
| Causes.DatabaseErrorBeforeGateIsCaught | core/reference_source.py:118-121 | every database error at the staging insert, its commit, the read-back or the reference query becomes the error of the run, of the kind of that step |
| Causes.ReferenceIsResolved | core/reference_source.py:92-131 | what a run asserts against is what its source gave it: the external answer, or the dict of the row the view showed for its key at that moment |
| Causes.AuditRowsInFull | core/pipeline.py:439-472 | every audit row in every reachable state, field by field, in terms of the request of its run: an ERRORED row has the error of the refused statement, the clock reading taken then, no published_ref and the report of the run, empty if there was none; the others have the report and the clock reading of the gate |
| Causes.PublishedRowsInFull | core/publisher.py:287-313 | every published row since the seed, field by field: the names of its request, the payload of the row promoted and the clock reading of the gate |
| Causes.QueueRowsInFull | core/review_queue.py:246-275 | every queue row, field by field: the names of its request, the report of its run and the clock reading of the gate |
| Causes.StagedRowsInFull | backends/postgres/staging_writer.py:116-162 | every staged row holds the names and the data of its request, whose key is non-empty and free of separators and whose data is a dict or a list |
| Completion.UnconflictedRunConcludes | core/pipeline.py:163-233 | gate completeness beside any other invocations: with a run_id nobody else uses, no fault and no deletion of its row, a finished run was published if its assertions pass on its own data and queued otherwise |
| Completion.RunDelivers | core/pipeline.py:113-233 | the same of every script without faults, with the outcome, the reference and every field of the rows written out from the request, the script and the clock readings |
| Invariants.ReachableInv | db/migrations/001_staging_published.sql:17-49 | in every reachable state the unique constraints hold, pending rows still meet no conflict, share-locked rows are still staged as read, and every invocation is consistent with its program counter |
| Invariants.NamesAreInjective | backends/postgres/staging_writer.py:40-56 | the staging_ref and the published_ref each determine dataset_key and run_id |
| Invariants.KeysAreUnique | db/migrations/001_staging_published.sql:17-49 | in every reachable state, column by column: published_ref and run_id are each unique in published.records, staging_ref and (dataset_key, run_id) in staging.records, run_id in the queue |
| Evidence.AuditAccounting | core/pipeline.py:353-423 | for every invocation of every run of the system: exactly one audit row, with its run, dataset, staging_ref, status and report, if it recorded an outcome, and none otherwise; a returned one without a row is ERRORED |
| Accounting.DurableIffCommitted | core/publisher.py:196-207 | an invocation has recorded an outcome if and only if some event is the commit of that outcome by that invocation and reached the server |
| Accounting.AuditedIffCommitReached | core/pipeline.py:11-21 | an invocation has exactly the one audit row of the outcome whose commit reached the server, and none if there is no such commit; never one under a run_id that Postgres does not cast |
| Accounting.FaultFreeRunsAreAudited | core/pipeline.py:141-161 | an invocation that meets no fault, whatever others do, raises if and only if its assertions are empty, its run_id is rejected, its snapshot is no dict or an assertion with an empty name raises; it is audited if and only if it returned and Postgres casts its run_id |
| Evidence.EvidenceBijection | core/publisher.py:352-401 | published rows match, one to one and in order, the audit rows of status published; queue rows match those of status routed_to_review; a run id occurs at most once in each |
| Evidence.StepOutcome | core/review_queue.py:334-365 | whatever a commit makes durable is the outcome it records, with the rows that go with it and no others |
| Outcomes.PublishedMeansAllPassed | core/publisher.py:240-249 | the hard gate over whole runs: a published row's run had assertions, and each gave PASSED on the payload read back |
| Outcomes.QueuedMeansFailure | core/review_queue.py:180-184 | a queued row has a non-passing result, its severity is the most critical among them, and its report is what the assertions gave on the payload read back, which is the run's own data if equal run_ids staged equal data |
| Outcomes.PayloadIntegrity | core/publisher.py:264-284 | the payload asserted and the payload published were each submitted by a run that staged under this key and run_id; if the runs that stage under one key and run_id submit the same data, both are the run's own data |
| Outcomes.UnsharedIsConsistent | core/pipeline.py:39-41 | in every reachable state, runs that stage under different pairs, as fresh run ids make them, meet the condition of payload integrity |
| Outcomes.DeletedIsNeverPublished | core/publisher.py:37-41 | a staged row deleted before its promotion read is refused for good: its run never publishes whatever happens afterwards, and if all its assertions passed it can return only as ERRORED by the publish gate; for runs that stage under unshared pairs |
| Outcomes.ExclusiveOutcome | backends/postgres/staging_writer.py:128-162 | without staging deletions at most one invocation per (dataset_key, run_id) gets its row into staging; without deletions, or with deletions but no pair staged twice, no pair is both published and queued |
| Atomicity.TransactionsAreAtomic | core/publisher.py:364-401 | every statement-level run refines a run of a machine whose transactions happen at once or not at all, so no invocation ever sees part of a publish or referral |
| Atomicity.ApplyRefines | core/review_queue.py:334-365 | each single event is one atomic event, or none, on the abstract state |
| Atomicity.ReadsSeeTables | core/reference_source.py:106-117 | reads outside transactions depend on committed rows alone |
| Progress.EveryRunCanFinish | core/pipeline.py:113-233 | from every state that satisfies the invariant, fault-free steps alone bring all invocations to their end: waiting inserts never deadlock |
| Progress.SomeoneCanMove | core/publisher.py:375-388 | an unfinished invocation can step, or its insert waits for the uncommitted row of another that can |
| Traces.UndisturbedRunConcludes | core/pipeline.py:163-233 | gate completeness: an invocation without faults or conflicts ends published with the data it submitted if all its assertions pass, and queued with the most critical severity otherwise, with exactly its audit row appended |
| Snapshots.Latest | db/migrations/001_staging_published.sql:55-62 | the one-pass DISTINCT ON scan yields a row with the maximal published_at of the key, if the key has rows |
| Snapshots.ResolvesAreMonotone | core/reference_source.py:92-131 | resolved rows are committed rows of the key, and successive resolves never go back in published_at, under every interleaving |
| Snapshots.ViewIsLastIffIncreasing | db/migrations/001_staging_published.sql:51-62 | the view shows exactly the last committed record in every state of a run if and only if it does at the start and every later record is stamped above all before it |
| Snapshots.LatestIsLastCommitted | core/publisher.py:185-187 | with non-overlapping publishes and increasing clock readings the view shows exactly the last committed record |
| History.SnapshotHistory | core/pipeline.py:195-225 | the induction over publish histories: any bound that the runs' checks carry from reference to payload holds of the i-th record at position i; no staging row is deleted, or the runs of the dataset that stage under one run_id submit the same data |
| History.RecordsDeriveFromEarlier | core/reference_source.py:92-131 | every record past the seed whose run took its reference from the snapshot is a payload that all the run's assertions accepted against an earlier record of the dataset; the published payload itself under the same condition on staged data |
| History.FxDriftIsLinear | assertions_library/fx_reconciliation.py:104-136 | with every run of a dataset under an FX tolerance of at most t, the i-th record has the seed's keys and every rate within i*t of the seed; no staging row is deleted, or equal run_ids staged equal data |
| History.RowCountsCompound | assertions_library/row_count_delta.py:237-274 | with every run under p percent, the i-th count lies in [r0(1-p/100)^i, r0(1+p/100)^i], stays positive if empty loads are refused, and stays 0 from 0; no staging row is deleted, or equal run_ids staged equal data |
| Compounding.RowCountsDriftLinearly | assertions_library/row_count_delta.py:199-216 | with every run under an absolute threshold of at most d, the i-th count is within i*d of the seed's; under the same condition on staged data |
| Compounding.MeansCompound | assertions_library/distribution_check.py:190-203 | with every run under a mean tolerance of t, the size of the i-th mean is at most max(m0, guard)(1+t)^i and, away from the zero guard, at least m0(1-t)^i (the powers by AfterIsPower); under the same condition on staged data |
| Compounding.StddevsCompound | assertions_library/distribution_check.py:205-215 | with every run under a std-dev tolerance of t, the i-th standard deviation stays in the same band around the seed's; under the same condition on staged data |
| Limits.DatabaseErrorLeavesNoAudit | core/publisher.py:219-227 | for every usable request: its run can stand at the gate, and every database error of its next statement then ends it with its row staged and no audit, published or queue row |
| Limits.LostAcknowledgementLeavesAudit | core/publisher.py:207-227 | for every usable request: its run can stand at its last commit, and if that is durable but not acknowledged the run raises with its outcome and exactly one audit row committed |
| Limits.ErroredMayLackAudit | core/pipeline.py:388-423 | for every request with a refused payload: its run can stand at the commit of its audit row, and a database error there gives an ERRORED result with its audit row or without, as the server decided |
| Limits.UncastRunIdLeavesNoAudit | core/pipeline.py:439-472 | for every request with an accepted run_id that Postgres does not cast, fault-free events alone lead to an ERRORED result without an audit row |
| Limits.ReuseCanPublishUnseenData | core/publisher.py:273-284 | for every two usable requests with one key, one run_id and different data, the first passing: the run of the first can publish the data of the second |
| Limits.ReuseCanPublishAndQueue | db/migrations/001_staging_published.sql:30-31 | for every passing and every failing usable request with one key and run_id: with a deletion in between the first can be published and the second queued, under one pair |
| Limits.OverlapCanHideLastCommitted | core/publisher.py:185-207 | for every two passing usable requests of one dataset: both can stand at their gates, the second stamped later, and from there the view can end on the record committed first |
| Limits.ClockCanHideLastCommitted | core/publisher.py:185-187 | for every two passing usable requests of one dataset: the first can be over and committed before the second is launched with a lower clock reading, and the view stays on the first record |
| Models.ResultsAreIsolated | core/pipeline.py:327-347 | there is one result per assertion, the k-th depending on the k-th assertion alone; the report exists unless an assertion with an empty name raises |
| Models.FailingIsExact | core/models.py:82-83 | the failed results are exactly the results that did not pass |
| Models.SeverityIsMostCriticalFailure | core/models.py:86-95 | the highest failed severity is the most critical one among non-passing results, and None exactly when all passed |
| Models.SeverityByName | core/models.py:86-95 | CRITICAL if any non-passing result is, then WARN, then INFO, and none if all passed |
| Models.RaisingIsErrored | core/pipeline.py:327-347 | an assertion contributes its own result, or if it raised an ERRORED result under its name and severity, which cannot be built for an empty name |
| Models.GatesPartitionReports | core/review_queue.py:235-244 | every report is let through by exactly one gate, and the WARN fallback of the queue severity is never used on one the review gate lets through |
| Models.OrderOfAssertionsIsImmaterial | core/pipeline.py:210-213 | rearranging the assertions rearranges the results alike and changes neither branch nor severity |
| FxReconciliation.Check | assertions_library/fx_reconciliation.py:84-177 | PASSED if and only if both payloads are dicts over the same keys and every pair of values is numeric with the staged rate at most the tolerance below or above the reference; the lists of mismatches, missing and extra keys are exactly the offending keys, with what each shows |
| FxReconciliation.Mismatches | assertions_library/fx_reconciliation.py:114-131 | the loop records exactly the shared keys whose values are non-numeric or differ by more than the tolerance, each with its two values, staged first, and their distance |
| FxReconciliation.AcceptanceBand | assertions_library/fx_reconciliation.py:104-138 | the accepted pairs of payloads are exactly the dicts over the same keys whose rates lie in the band of the tolerance around the reference |
| FxReconciliation.OnePairBand | assertions_library/fx_reconciliation.py:115-131 | one pair of floats, integers or booleans passes if and only if reference - t <= staged <= reference + t; anything else never reconciles |
| FxReconciliation.AssertionIsCheck | assertions_library/fx_reconciliation.py:84-177 | the assertion that the protocol runs gives the verdict of check under its name and severity |
| FxReconciliation.PassingIsSymmetric | assertions_library/fx_reconciliation.py:104-136 | passing does not depend on which side is staged |
| FxReconciliation.PassingComposes | assertions_library/fx_reconciliation.py:115-126 | tolerances add up along a chain of passing checks |
| FxReconciliation.RequiredKeysHoldOnlyThroughReference | assertions_library/fx_reconciliation.py:133-136 | a passing check guarantees the required keys if and only if the reference has them all |
| RowCount.PercentAcceptance | assertions_library/row_count_delta.py:237-274 | percentage mode for every pair of counts: a band at a positive reference, only zero at zero, everything below zero |
| RowCount.EmptyLoad | assertions_library/row_count_delta.py:120-137 | exactly when an empty load passes, for every reference count |
| RowCount.Acceptance | assertions_library/row_count_delta.py:102-142 | acceptance of two payloads for every pair of counts: within the threshold in absolute mode, in the band of a positive reference in percentage mode, and an empty load only where allowed |
| RowCount.CountIs | assertions_library/row_count_delta.py:148-193 | a payload has a count exactly if it is a dict with an integer under the key, a boolean standing for 0 or 1 |
| RowCount.UnchangedCountPasses | assertions_library/row_count_delta.py:102-142 | without a count on either side nothing passes, and an unchanged positive count always does |
| RowCount.AssertionIsCheck | assertions_library/row_count_delta.py:102-142 | the assertion that the protocol runs gives the verdict of check under its name and severity |
| Distribution.Check | assertions_library/distribution_check.py:137-245 | the verdict, and which of the two drift failures is listed, in terms of mean and standard deviation; a staged sample below the minimum size fails |
| Distribution.Compare | assertions_library/distribution_check.py:190-215 | the mean failure is listed if and only if the means differ by more than the tolerated share of the reference, or the staged mean is non-zero beside a zero reference, both as the guard of 1e-10 decides; the same of the standard deviation |
| Distribution.ExtractValues | assertions_library/distribution_check.py:251-307 | the first unreadable payload is the one named; otherwise the two number lists |
| Distribution.NumbersAreRead | assertions_library/distribution_check.py:251-307 | the check reads a list of numbers from a payload if and only if it is a dict with a non-empty list under the field whose items stand for those numbers, in order |
| Distribution.StatisticsOfTwo | assertions_library/distribution_check.py:60-70 | mean and population variance of two values |
| Distribution.RepeatingChangesNothing | assertions_library/distribution_check.py:60-70 | repeating a sample changes neither mean nor variance, as a population variance must; one value has no deviation |
| Distribution.MeanBand | assertions_library/distribution_check.py:190-203 | mean acceptance: the tolerated share of the reference on either side, for either sign, and only zero to 1e-10 beside a zero reference |
| Distribution.AssertionIsCheck | assertions_library/distribution_check.py:137-245 | the assertion that the protocol runs gives the verdict of check under its name and severity |
| Distribution.VerdictIgnoresOrder | assertions_library/distribution_check.py:5-16 | the documented limitation: reordering either list of values changes neither the verdict nor either drift |
| Distribution.ScaleLaw | assertions_library/distribution_check.py:309-317 | scaling by k gives mean drift abs(k-1) and std-dev drift abs(abs(k)-1) away from the zero guards |
| Distribution.ShiftLaw | assertions_library/distribution_check.py:205-215 | shifting every value never fails the std-dev part, at any tolerance |
| Distribution.StddevBand | assertions_library/distribution_check.py:64-70 | std-dev acceptance is equivalent to a band on the variance |
| Distribution.StddevAcceptance | assertions_library/distribution_check.py:205-215 | std-dev acceptance: the tolerated share of the reference on either side, and at most 1e-10 beside a reference below 1e-10 |
| StagingRef.ParseInvertsPrint | backends/postgres/staging_writer.py:43-56 | what is printed for a valid key parses back to it if and only if the run_id has the 36-character form |
| StagingRef.PrintInvertsParse | backends/postgres/staging_writer.py:40-56 | an accepted text is the print of what it parsed to, up to one final newline that the regex lets through |
| StagingRef.PrintIsInjective | backends/postgres/staging_writer.py:215-216 | on keys without a slash the staging_ref determines key and run_id |
| StagingRef.IndexesAgree | db/migrations/001_staging_published.sql:17-31 | for standard run ids the primary key and the (dataset_key, run_id) index reject the same second row |
| StagingRef.StandardIsUsable | core/models.py:128-130 | run ids as new_run_id makes them are accepted, cast and read back |
| StagingRef.LeadingHyphenIsNotCast | backends/postgres/staging_writer.py:84-89 | 32 digits with a hyphen in front pass the run_id check and are not cast by Postgres |
| StagingRef.MovedHyphensSplitTheIndexes | backends/postgres/staging_writer.py:84-89 | for every valid key, a UUID spelled with moved hyphens is accepted and cast, is the same UUID, and has another staging_ref |
| StagingRef.StagedRunIdReadsBack | backends/postgres/staging_writer.py:164-177 | an accepted run_id can be read back if and only if it has the 36-character form |
| StagingRef.ValidRunIdIs | backends/postgres/staging_writer.py:84-89 | the accepted run_ids are exactly the texts of 32 hexadecimal digits in either case and any number of hyphens |
| StagingRef.UpperCaseIsSameUuid | backends/postgres/staging_writer.py:40-56 | a spelling with upper-case digits is the same UUID, and does not have the form that can be read back |
| StagingRef.RefRunIdIs | backends/postgres/staging_writer.py:40-56 | the run_id part of a staging_ref: 36 characters among the lower-case hexadecimal digits and the hyphen |
| StagingRef.CastableIffHyphensFit | backends/postgres/staging_writer.py:128-142 | of digits and hyphens Postgres casts exactly those with hyphens singly between two groups of four |
| StagingRef.RefsAreApart | core/publisher.py:185 | a published_ref is never a staging_ref and never parses as one |
| Migrations.Runner.RunMigrations | db/migrations/run_migrations.py:71-125 | for every choice of faults: the call completes if and only if none stops it, with the whole pass, and otherwise ends at the first file that is stopped, having committed exactly the pass before it, or with it if its commit had reached the server |
| Migrations.InterruptedCallsLeaveAPrefix | db/migrations/run_migrations.py:89-125 | after any such calls from an empty database the schema is the fold of a prefix of the files and the tracking table is exactly that prefix |
| Migrations.CrashRestartEqualsCleanRun | db/migrations/run_migrations.py:89-125 | a completed call leaves what one clean run leaves, whatever was cut short before, and later calls change nothing |
| Migrations.LateFileRunsOutOfOrder | db/migrations/run_migrations.py:102-120 | a file that appears later but sorts first is executed last |
| Pool.LockIsExact | backends/postgres/connection.py:93-123 | mutual exclusion, and the lock is free exactly when no thread is in its critical section |
| Pool.SinglePool | backends/postgres/connection.py:93-123 | without close_pool at most one construction succeeds and every caller that returns gets that pool |
| Pool.RaisesIffOwnBuildFails | backends/postgres/connection.py:107-121 | a caller raises if and only if its own construction failed, and constructs only where it found no pool under the lock |
| Pool.FastPath | backends/postgres/connection.py:101-102 | a caller that sees a pool returns it without the lock, whoever holds it, and changes nothing |
| Pool.CallerAloneGetsPool | backends/postgres/connection.py:93-123 | a caller that finds the lock free and is left alone gets a pool, the present one if there is one |
| Pool.NoneIffClosedInBetween | backends/postgres/connection.py:93-178 | over all interleavings with close_pool, a caller gets None if and only if a close emptied the variable, and no build filled it again, between its sight of a pool and its unlocked read |
| Pool.CloseCanYieldNone | backends/postgres/connection.py:166-178 | such a schedule exists: a caller that built the pool gets None |

## Left out

- psycopg2, SQL text, the network, DSN and environment parsing: the database is its tables, unique constraints, share lock, transactions and faults. A connection returned to the pool with an open transaction is taken to discard it.
- JSON serialisation of reports, logging, message wording, rounding in evidence: reports are values, and a serialisation failure is one more fault.
- Clock readings and run ids are inputs; properties that need an order or freshness say so. Braced, `urn:` and other unusual UUID spellings that Python's `UUID` accepts are not modelled.
- IEEE floating point, NaN and infinity: numbers are exact reals, and the square root of the distribution check is a parameter of which only the defining property is used.
- List payloads as snapshot references: `dict(payload)` is the dict itself, the empty dict for an empty list, and an exception for any other list, although Python would turn a list of pairs into a dict.
- Resolve: an external reference source answers with an arbitrary value, raises ReferenceResolutionError or raises something else; it does not touch the tables.
- Write: the wait of an insert for another transaction's uncommitted row is interference before the statement, and a wait that has not ended by then ends as a database error, as a lock timeout does. The same holds of InsertPublished and Route.
- Assertion objects are functions of the two payloads: an assertion that keeps state between calls, mutates a payload, or reads a clock is not modelled. The three library checks enter the protocol by their verdicts, to which their `Check` methods or acceptance lemmas are tied.
- Percentages, tolerances and thresholds outside what the constructors accept.
- Serial ids and default timestamps of the audit and queue tables, the queue_id returned by `route`, and human resolution of queue entries.
- RunMigrations: concurrent runners, and scripts that commit by themselves, are not modelled.
- SinglePool: `get_connection` and the pool's own bookkeeping are not modelled, only the module-level variable and its lock.
- The Airflow adapter, the demo, the seed scripts and packaging.
