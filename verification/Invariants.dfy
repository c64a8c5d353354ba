/** What every reachable state satisfies, and that every event keeps it. */
module Invariants {
  import opened Wrappers
  import opened Models
  import opened StagingRef
  import opened Protocol

  // ---------------------------------------------------------------- one invocation

  /** The pending buffer that belongs to a program counter. */
  function PendingTxn(i: nat, r: Run): Txn {
    match r.pc
    case StagingCommit => NO_TXN.(staged := Some(StagedRowOf(i, r.spec)))
    case PublishInsert => NO_TXN.(lock := Some(r.spec.ref))
    case PublishAudit => NO_TXN.(lock := Some(r.spec.ref), published := Some(PublishedRowOf(i, r)))
    case PublishCommit =>
      NO_TXN.(lock := Some(r.spec.ref), published := Some(PublishedRowOf(i, r)), audit := Some(AuditRowOf(i, r, Published)))
    case RouteAudit => NO_TXN.(queued := Some(QueueRowOf(i, r)))
    case RouteCommit => NO_TXN.(queued := Some(QueueRowOf(i, r)), audit := Some(AuditRowOf(i, r, RoutedToReview)))
    case ErrorCommit => NO_TXN.(audit := Some(AuditRowOf(i, r, RunStatus.Errored)))
    case _ => NO_TXN
  }

  /** What an invocation must hold to claim an outcome. */
  predicate Supports(r: Run, status: RunStatus) {
    match status
    case Published => r.report.Some? && r.report.value.AllPassed() && r.promoted.Some?
    case RoutedToReview => r.report.Some? && !r.report.value.AllPassed()
    case Errored => r.error.Some?
  }

  /** What `_errored` was called for: before there is a report, or by the gate the report chose. */
  predicate ErrorFits(r: Run) {
    r.error.Some? ==>
      && (|| r.pc.ErrorAudit? || r.pc.ErrorCommit? || (r.pc.Returned? && r.pc.status.Errored?)
          || (r.pc.Escaped? && (r.pc.committed.Some? ==> r.pc.committed.value.Errored?)))
      && match r.error.value
         case PublishRefused => r.report.Some? && r.report.value.AllPassed()
         case RoutingRefused => r.report.Some? && !r.report.value.AllPassed()
         case _ => r.reference.None?
  }

  predicate PcOk(r: Run) {
    && ErrorFits(r)
    && (r.staged.Some? ==> r.landed)
    && (r.reference.Some? ==> r.staged.Some?)
    && (r.report.Some? ==> r.reference.Some?)
    && (r.promoted.Some? ==> r.report.Some?)
    && (r.landed ==> r.spec.Stageable() && r.spec.castable)
    && (Committed(r).Some? ==> r.spec.castable)
    && match r.pc
       case Staging => !r.landed && r.spec.assertions != []
       case StagingCommit => !r.landed && r.spec.Stageable() && r.spec.castable
       case ReadBack => r.landed && r.staged.None?
       case Resolving => r.staged.Some? && r.reference.None?
       case Asserting => r.reference.Some? && r.report.None?
       case PublishRead => r.report.Some? && r.report.value.AllPassed() && r.promoted.None?
       case PublishInsert | PublishAudit | PublishCommit => Supports(r, Published)
       case RouteQueue | RouteAudit | RouteCommit => Supports(r, RoutedToReview) && r.promoted.None?
       case ErrorAudit => r.error.Some? && r.promoted.None?
       case ErrorCommit => r.error.Some? && r.promoted.None? && r.spec.castable
       case Returned(status, audited) =>
         Supports(r, status) && (audited || status.Errored?) && (r.promoted.Some? ==> status.Published?)
       case Escaped(c) =>
         (c.Some? ==> Supports(r, c.value)) && (r.promoted.Some? ==> c == Some(Published))
  }

  /** The report is the one its assertions give on the payload read back and the reference. */
  predicate ReportOk(r: Run) {
    r.report.Some? ==>
      && r.staged.Some? && r.reference.Some?
      && r.report.value.runId == r.spec.runId
      && RunAll(r.spec.assertions, r.staged.value.payload, r.reference.value) == Some(r.report.value.results)
  }

  /** A row of staging, or one read from it, is what its writer submitted. */
  predicate Authentic(s: State, ref: string, row: StagedRow) {
    && row.ref == ref && ValidKey(row.key)
    && row.writer < |s.runs| && row == StagedRowOf(row.writer, s.runs[row.writer].spec)
    && s.runs[row.writer].landed
  }

  predicate Orderly(s: State, i: nat, r: Run) {
    && r.txn == PendingTxn(i, r) && PcOk(r) && ReportOk(r)
    && (r.pc != Escaped(None) ==> r.spec.assertions != [])
    && (r.staged.Some? ==> Authentic(s, r.spec.ref, r.staged.value))
    && (r.promoted.Some? ==> Authentic(s, r.spec.ref, r.promoted.value))
  }

  predicate RunOk(s: State, i: nat)
    requires i < |s.runs|
  {
    Orderly(s, i, s.runs[i])
  }

  // ---------------------------------------------------------------- tables and transactions

  ghost predicate RunsOk(s: State) {
    forall i | 0 <= i < |s.runs| :: RunOk(s, i)
  }

  ghost predicate StagingOk(s: State) {
    && (forall ref <- s.staging :: Authentic(s, ref, s.staging[ref]))
    && (forall a, b | a in s.staging && b in s.staging && SameStaged(s.staging[a], s.staging[b]) :: a == b)
  }

  ghost predicate PublishedOk(s: State) {
    forall k, l | 0 <= k < l < |s.published| :: !SamePublished(s.published[k], s.published[l])
  }

  ghost predicate QueueOk(s: State) {
    forall k, l | 0 <= k < l < |s.queue| :: s.queue[k].uuid != s.queue[l].uuid
  }

  /** A pending row still meets no conflict, committed or pending. */
  ghost predicate PendingOk(s: State) {
    forall i | 0 <= i < |s.runs| :: PendingRowsOk(s, i)
  }

  ghost predicate StagedFree(s: State, i: nat, t: Txn) {
    t.staged.Some? ==> !StagedTaken(s, t.staged.value) && !StagedHeld(s, i, t.staged.value)
  }

  ghost predicate PublishedFree(s: State, i: nat, t: Txn) {
    t.published.Some? ==> !PublishedTaken(s, t.published.value) && !PublishedHeld(s, i, t.published.value)
  }

  ghost predicate QueueFree(s: State, i: nat, t: Txn) {
    t.queued.Some? ==> !QueueTaken(s, t.queued.value) && !QueueHeld(s, i, t.queued.value)
  }

  ghost predicate PendingRowsOk(s: State, i: nat)
    requires i < |s.runs|
  {
    var t := s.runs[i].txn;
    StagedFree(s, i, t) && PublishedFree(s, i, t) && QueueFree(s, i, t)
  }

  /** A share-locked row is still in staging, as it was read. */
  ghost predicate LocksOk(s: State) {
    forall i | 0 <= i < |s.runs| && s.runs[i].txn.lock.Some? :: LockOk(s, i)
  }

  ghost predicate LockOk(s: State, i: nat)
    requires i < |s.runs|
  {
    var r := s.runs[i];
    r.spec.ref in s.staging && r.promoted == Some(s.staging[r.spec.ref])
  }

  ghost predicate Inv(s: State) {
    RunsOk(s) && StagingOk(s) && PublishedOk(s) && QueueOk(s) && PendingOk(s) && LocksOk(s)
  }

  // ---------------------------------------------------------------- every event keeps it

  /** Invocations are never forgotten or changed in what they were asked to do, and what they have
      committed to staging stays committed. */
  ghost predicate SpecsKept(s: State, t: State) {
    && |s.runs| <= |t.runs|
    && forall i | 0 <= i < |s.runs| ::
         && s.runs[i].spec == t.runs[i].spec && s.runs[i].startedAt == t.runs[i].startedAt
         && (s.runs[i].landed ==> t.runs[i].landed)
  }

  lemma StepKeepsSpec(s: State, i: nat, o: Oracle)
    requires i < |s.runs| && StepOf(s, i, o).Next?
    ensures var r := StepOf(s, i, o).run;
      && r.spec == s.runs[i].spec && r.startedAt == s.runs[i].startedAt
      && (s.runs[i].landed ==> r.landed)
  {
  }

  lemma ApplyKeepsSpecs(s: State, e: Event)
    ensures SpecsKept(s, Apply(s, e))
  {
    if e.Step? && e.i < |s.runs| && StepOf(s, e.i, e.o).Next? {
      StepKeepsSpec(s, e.i, e.o);
    }
  }

  lemma AuthenticKept(s: State, t: State, ref: string, row: StagedRow)
    requires SpecsKept(s, t) && Authentic(s, ref, row)
    ensures Authentic(t, ref, row)
  {
  }

  /** Only a commit changes the tables, and then by exactly the pending rows. */
  lemma StepTables(s: State, i: nat, o: Oracle)
    requires i < |s.runs|
    ensures var t := Apply(s, Step(i, o));
      match StepOf(s, i, o)
      case Blocked => t == s
      case Next(r, commits) =>
        && t.runs == s.runs[i := r]
        && (commits ==> Committing(s.runs[i].pc)) && (commits ==> !Committing(r.pc))
        && t.staging == (if commits then Flush(s, s.runs[i].txn) else s).staging
        && t.published == (if commits then Flush(s, s.runs[i].txn) else s).published
        && t.audit == (if commits then Flush(s, s.runs[i].txn) else s).audit
        && t.queue == (if commits then Flush(s, s.runs[i].txn) else s).queue
  {
  }

  lemma FailIsOrderly(s: State, i: nat, r: Run, error: ErrorKind, now: int)
    requires Orderly(s, i, r) && r.spec.assertions != [] && r.error.None?
    requires ErrorFits(Fail(r, error, now))
    ensures Orderly(s, i, Fail(r, error, now))
  {
  }

  lemma EscapeIsOrderly(s: State, i: nat, r: Run, committed: Option<RunStatus>)
    requires Orderly(s, i, r) && (committed.Some? ==> Supports(r, committed.value) && r.spec.castable)
    requires r.spec.assertions != [] && ErrorFits(Escape(r, committed))
    ensures Orderly(s, i, Escape(r, committed))
  {
  }

  lemma StagingStepsAreOrderly(s: State, i: nat, o: Oracle)
    requires Inv(s) && i < |s.runs| && StepOf(s, i, o).Next?
    requires var pc := s.runs[i].pc; pc.Staging? || pc.ReadBack? || pc.Resolving?
    ensures Orderly(s, i, StepOf(s, i, o).run)
  {
    var r := s.runs[i];
    assert RunOk(s, i);
    EscapeIsOrderly(s, i, r, None);
    FailIsOrderly(s, i, r, WriteFailed, o.now);
    FailIsOrderly(s, i, r, ReadBackFailed, o.now);
    FailIsOrderly(s, i, r, ReferenceFailed, o.now);
  }

  lemma StagingCommitIsOrderly(s: State, i: nat, o: Oracle)
    requires i < |s.runs| && RunOk(s, i) && StepOf(s, i, o).Next? && s.runs[i].pc.StagingCommit?
    ensures Orderly(s, i, StepOf(s, i, o).run)
  {
  }

  lemma AssertingStepsAreOrderly(s: State, i: nat, o: Oracle)
    requires Inv(s) && i < |s.runs| && StepOf(s, i, o).Next? && s.runs[i].pc.Asserting?
    ensures Orderly(s, i, StepOf(s, i, o).run)
  {
    assert RunOk(s, i);
    EscapeIsOrderly(s, i, s.runs[i], None);
  }

  lemma PublishReadIsOrderly(s: State, i: nat, o: Oracle)
    requires Inv(s) && i < |s.runs| && StepOf(s, i, o).Next? && s.runs[i].pc.PublishRead?
    ensures Orderly(s, i, StepOf(s, i, o).run)
  {
    assert RunOk(s, i);
    EscapeIsOrderly(s, i, s.runs[i], None);
    FailIsOrderly(s, i, s.runs[i], PublishRefused, o.now);
  }

  lemma PublishStepsAreOrderly(s: State, i: nat, o: Oracle)
    requires i < |s.runs| && RunOk(s, i) && StepOf(s, i, o).Next?
    requires s.runs[i].pc.PublishInsert? || s.runs[i].pc.PublishAudit?
    ensures Orderly(s, i, StepOf(s, i, o).run)
  {
    EscapeIsOrderly(s, i, s.runs[i], None);
    FailIsOrderly(s, i, s.runs[i], PublishRefused, o.now);
  }

  lemma RouteStepsAreOrderly(s: State, i: nat, o: Oracle)
    requires i < |s.runs| && RunOk(s, i) && StepOf(s, i, o).Next?
    requires s.runs[i].pc.RouteQueue? || s.runs[i].pc.RouteAudit?
    ensures Orderly(s, i, StepOf(s, i, o).run)
  {
    EscapeIsOrderly(s, i, s.runs[i], None);
    FailIsOrderly(s, i, s.runs[i], RoutingRefused, o.now);
  }

  lemma OutcomeCommitsAreOrderly(s: State, i: nat, o: Oracle)
    requires i < |s.runs| && RunOk(s, i) && StepOf(s, i, o).Next?
    requires s.runs[i].pc.PublishCommit? || s.runs[i].pc.RouteCommit?
    ensures Orderly(s, i, StepOf(s, i, o).run)
  {
    EscapeIsOrderly(s, i, s.runs[i], None);
    EscapeIsOrderly(s, i, s.runs[i], Some(if s.runs[i].pc.PublishCommit? then Published else RoutedToReview));
  }

  lemma ErrorAuditIsOrderly(s: State, i: nat, o: Oracle)
    requires i < |s.runs| && RunOk(s, i) && StepOf(s, i, o).Next? && s.runs[i].pc.ErrorAudit?
    ensures Orderly(s, i, StepOf(s, i, o).run)
  {
    EscapeIsOrderly(s, i, s.runs[i], None);
  }

  lemma ErrorCommitIsOrderly(s: State, i: nat, o: Oracle)
    requires i < |s.runs| && RunOk(s, i) && StepOf(s, i, o).Next? && s.runs[i].pc.ErrorCommit?
    ensures Orderly(s, i, StepOf(s, i, o).run)
  {
    EscapeIsOrderly(s, i, s.runs[i], None);
    EscapeIsOrderly(s, i, s.runs[i], Some(RunStatus.Errored));
  }

  /** The step of one invocation leaves that invocation in order. */
  lemma StepIsOrderly(s: State, i: nat, o: Oracle)
    requires Inv(s) && i < |s.runs| && StepOf(s, i, o).Next?
    ensures Orderly(s, i, StepOf(s, i, o).run)
  {
    assert RunOk(s, i);
    match s.runs[i].pc
    case Staging | ReadBack | Resolving => StagingStepsAreOrderly(s, i, o);
    case StagingCommit => StagingCommitIsOrderly(s, i, o);
    case Asserting => AssertingStepsAreOrderly(s, i, o);
    case PublishRead => PublishReadIsOrderly(s, i, o);
    case PublishInsert | PublishAudit => PublishStepsAreOrderly(s, i, o);
    case RouteQueue | RouteAudit => RouteStepsAreOrderly(s, i, o);
    case PublishCommit | RouteCommit => OutcomeCommitsAreOrderly(s, i, o);
    case ErrorAudit => ErrorAuditIsOrderly(s, i, o);
    case ErrorCommit => ErrorCommitIsOrderly(s, i, o);
    case _ => assert false;
  }

  lemma OrderlyKept(s: State, t: State, i: nat, r: Run)
    requires SpecsKept(s, t) && Orderly(s, i, r)
    ensures Orderly(t, i, r)
  {
  }

  lemma LaunchedIsOrderly(t: State, i: nat, q: Request, now: int)
    ensures Orderly(t, i, Launched(q, now))
  {
  }

  lemma ApplyKeepsRunOk(s: State, e: Event, i: nat)
    requires Inv(s) && i < |Apply(s, e).runs|
    ensures RunOk(Apply(s, e), i)
  {
    var t := Apply(s, e);
    ApplyKeepsSpecs(s, e);
    if e.Step? && i == e.i && StepOf(s, i, e.o).Next? {
      StepIsOrderly(s, i, e.o);
      OrderlyKept(s, t, i, StepOf(s, i, e.o).run);
    } else if i < |s.runs| {
      assert RunOk(s, i) && t.runs[i] == s.runs[i];
      OrderlyKept(s, t, i, s.runs[i]);
    } else {
      LaunchedIsOrderly(t, i, e.request, e.now);
    }
  }

  lemma ApplyKeepsRunsOk(s: State, e: Event)
    requires Inv(s)
    ensures RunsOk(Apply(s, e))
  {
    forall i | 0 <= i < |Apply(s, e).runs| ensures RunOk(Apply(s, e), i) {
      ApplyKeepsRunOk(s, e, i);
    }
  }

  lemma CommitSource(s: State, i: nat, o: Oracle)
    requires i < |s.runs| && StepOf(s, i, o).Next?
    ensures var r, m := s.runs[i], StepOf(s, i, o);
      && (m.commits ==> Committing(r.pc) && m.run.txn == NO_TXN)
      && (m.commits ==> m.run.pc.ReadBack? || m.run.pc.ErrorAudit? || Finished(m.run.pc))
  {
  }

  lemma PublishSource(s: State, i: nat, o: Oracle)
    requires i < |s.runs| && StepOf(s, i, o).Next?
    ensures var r, q := s.runs[i], StepOf(s, i, o).run;
      && (q.pc.PublishRead? ==> r.pc.Asserting? && q.stamp == o.now)
      && (q.pc.PublishInsert? ==>
            r.pc.PublishRead? && q.stamp == r.stamp && r.spec.ref in s.staging && q.promoted == Some(s.staging[r.spec.ref]))
      && (q.pc.PublishAudit? ==>
            r.pc.PublishInsert? && q.promoted == r.promoted && q.stamp == r.stamp
            && !PublishedTaken(s, PublishedRowOf(i, r)) && !PublishedHeld(s, i, PublishedRowOf(i, r)))
      && (q.pc.PublishCommit? ==> r.pc.PublishAudit? && q.promoted == r.promoted && q.stamp == r.stamp)
  {
  }

  lemma RouteSource(s: State, i: nat, o: Oracle)
    requires i < |s.runs| && StepOf(s, i, o).Next?
    ensures var r, q := s.runs[i], StepOf(s, i, o).run;
      && (q.pc.StagingCommit? ==>
            r.pc.Staging? && !StagedTaken(s, StagedRowOf(i, r.spec)) && !StagedHeld(s, i, StagedRowOf(i, r.spec)))
      && (q.pc.RouteAudit? ==>
            r.pc.RouteQueue? && q.report == r.report && q.stamp == r.stamp
            && !QueueTaken(s, QueueRowOf(i, r)) && !QueueHeld(s, i, QueueRowOf(i, r)))
      && (q.pc.RouteCommit? ==> r.pc.RouteAudit? && q.report == r.report && q.stamp == r.stamp)
  {
  }

  /** Where a step that leaves something pending came from, and what it checked. */
  lemma StepSource(s: State, i: nat, o: Oracle)
    requires i < |s.runs| && StepOf(s, i, o).Next?
    ensures var r, m := s.runs[i], StepOf(s, i, o);
      && (m.commits ==> Committing(r.pc) && m.run.txn == NO_TXN)
      && (m.commits ==> m.run.pc.ReadBack? || m.run.pc.ErrorAudit? || Finished(m.run.pc))
      && match m.run.pc
         case StagingCommit =>
           r.pc.Staging? && !StagedTaken(s, StagedRowOf(i, r.spec)) && !StagedHeld(s, i, StagedRowOf(i, r.spec))
         case PublishRead => r.pc.Asserting? && m.run.stamp == o.now
         case PublishInsert =>
           r.pc.PublishRead? && m.run.stamp == r.stamp && r.spec.ref in s.staging && m.run.promoted == Some(s.staging[r.spec.ref])
         case PublishAudit =>
           r.pc.PublishInsert? && m.run.promoted == r.promoted && m.run.stamp == r.stamp
           && !PublishedTaken(s, PublishedRowOf(i, r)) && !PublishedHeld(s, i, PublishedRowOf(i, r))
         case PublishCommit =>
           r.pc.PublishAudit? && m.run.promoted == r.promoted && m.run.stamp == r.stamp
         case RouteAudit =>
           r.pc.RouteQueue? && m.run.report == r.report && m.run.stamp == r.stamp
           && !QueueTaken(s, QueueRowOf(i, r)) && !QueueHeld(s, i, QueueRowOf(i, r))
         case RouteCommit =>
           r.pc.RouteAudit? && m.run.report == r.report && m.run.stamp == r.stamp
         case _ => true
  {
    CommitSource(s, i, o);
    PublishSource(s, i, o);
    RouteSource(s, i, o);
  }

  /** A step leaves a lock only on the row it read. */
  lemma StepLocks(s: State, i: nat, o: Oracle)
    requires Inv(s) && i < |s.runs| && StepOf(s, i, o).Next?
    ensures var r := StepOf(s, i, o).run;
      r.txn.lock.Some? ==> r.spec.ref in s.staging && r.promoted == Some(s.staging[r.spec.ref])
  {
    var r, q := s.runs[i], StepOf(s, i, o).run;
    StepSource(s, i, o);
    StepKeepsSpec(s, i, o);
    PendingFits(s, i, o);
    if q.pc.PublishAudit? || q.pc.PublishCommit? {
      assert LockOk(s, i);
    }
  }

  lemma PendingFits(s: State, i: nat, o: Oracle)
    requires Inv(s) && i < |s.runs| && StepOf(s, i, o).Next?
    ensures s.runs[i].txn == PendingTxn(i, s.runs[i])
    ensures StepOf(s, i, o).run.txn == PendingTxn(i, StepOf(s, i, o).run)
  {
    StepIsOrderly(s, i, o);
    assert RunOk(s, i);
  }

  /** Whatever a step leaves pending meets no conflict, committed or pending. */
  lemma StepPending(s: State, i: nat, o: Oracle)
    requires Inv(s) && i < |s.runs| && StepOf(s, i, o).Next?
    ensures var t := StepOf(s, i, o).run.txn;
      StagedFree(s, i, t) && PublishedFree(s, i, t) && QueueFree(s, i, t)
  {
    StepSource(s, i, o);
    StepKeepsSpec(s, i, o);
    PendingFits(s, i, o);
    assert PendingRowsOk(s, i);
  }

  /** The committed rows of a transaction were pending, hence free of conflicts. */
  lemma FlushedRows(s: State, i: nat)
    requires Inv(s) && i < |s.runs|
    ensures PendingRowsOk(s, i)
    ensures s.runs[i].txn == PendingTxn(i, s.runs[i])
    ensures var r := s.runs[i];
      r.txn.staged.Some? ==> r.pc.StagingCommit? && r.spec.Stageable() && r.txn.staged.value == StagedRowOf(i, r.spec)
  {
    assert RunOk(s, i) && PendingRowsOk(s, i);
  }

  lemma ApplyStaging(s: State, e: Event, ref: string)
    requires Inv(s) && ref in Apply(s, e).staging
    ensures var row := Apply(s, e).staging[ref];
      || (ref in s.staging && row == s.staging[ref])
      || (e.Step? && e.i < |s.runs| && s.runs[e.i].txn.staged == Some(row) && ref == row.ref
          && StepOf(s, e.i, e.o).Next? && StepOf(s, e.i, e.o).commits)
  {
  }

  /** A row gets into staging exactly when its writer lands. */
  lemma StepLanding(s: State, i: nat, o: Oracle)
    requires i < |s.runs| && StepOf(s, i, o).Next?
    ensures var m := StepOf(s, i, o);
      && (m.run.landed && !s.runs[i].landed ==> s.runs[i].pc.StagingCommit? && m.commits)
      && (s.runs[i].pc.StagingCommit? && m.commits ==> m.run.landed)
  {
  }

  lemma ApplyKeepsStagedRow(s: State, e: Event, ref: string)
    requires Inv(s) && ref in Apply(s, e).staging
    ensures Authentic(Apply(s, e), ref, Apply(s, e).staging[ref])
  {
    var t := Apply(s, e);
    ApplyKeepsSpecs(s, e);
    ApplyStaging(s, e, ref);
    if ref in s.staging && t.staging[ref] == s.staging[ref] {
      AuthenticKept(s, t, ref, t.staging[ref]);
    } else {
      FlushedRows(s, e.i);
      StepLanding(s, e.i, e.o);
    }
  }

  lemma ApplyKeepsStagingOk(s: State, e: Event)
    requires Inv(s)
    ensures StagingOk(Apply(s, e))
  {
    var t := Apply(s, e);
    if e.Step? && e.i < |s.runs| {
      FlushedRows(s, e.i);
    }
    forall ref <- t.staging ensures Authentic(t, ref, t.staging[ref]) {
      ApplyKeepsStagedRow(s, e, ref);
    }
    forall a, b | a in t.staging && b in t.staging && SameStaged(t.staging[a], t.staging[b]) ensures a == b {
      ApplyStaging(s, e, a);
      ApplyStaging(s, e, b);
    }
  }

  lemma ApplyKeepsPublishedOk(s: State, e: Event)
    requires Inv(s)
    ensures PublishedOk(Apply(s, e)) && QueueOk(Apply(s, e))
  {
    if e.Step? && e.i < |s.runs| {
      FlushedRows(s, e.i);
    }
  }

  /** A step of i, seen from the transaction of j: rows that were free of conflicts stay free. */
  lemma StepKeepsFree(s: State, i: nat, o: Oracle, j: nat)
    requires Inv(s) && i < |s.runs| && j < |s.runs| && StepOf(s, i, o).Next?
    ensures var t := Apply(s, Step(i, o));
      StagedFree(t, j, t.runs[j].txn) && PublishedFree(t, j, t.runs[j].txn) && QueueFree(t, j, t.runs[j].txn)
  {
    StepTables(s, i, o);
    StepSource(s, i, o);
    StepPending(s, i, o);
    assert PendingRowsOk(s, i) && PendingRowsOk(s, j);
    StagedStaysFree(s, i, o, j);
    PublishedStaysFree(s, i, o, j);
    QueueStaysFree(s, i, o, j);
  }

  lemma StagedStaysFree(s: State, i: nat, o: Oracle, j: nat)
    requires i < |s.runs| && j < |s.runs| && StepOf(s, i, o).Next?
    requires StepOf(s, i, o).commits ==> StepOf(s, i, o).run.txn == NO_TXN
    requires StagedFree(s, i, s.runs[i].txn) && StagedFree(s, j, s.runs[j].txn)
    requires StagedFree(s, i, StepOf(s, i, o).run.txn)
    ensures StagedFree(Apply(s, Step(i, o)), j, Apply(s, Step(i, o)).runs[j].txn)
  {
    StepTables(s, i, o);
  }

  lemma PublishedStaysFree(s: State, i: nat, o: Oracle, j: nat)
    requires i < |s.runs| && j < |s.runs| && StepOf(s, i, o).Next?
    requires StepOf(s, i, o).commits ==> StepOf(s, i, o).run.txn == NO_TXN
    requires PublishedFree(s, i, s.runs[i].txn) && PublishedFree(s, j, s.runs[j].txn)
    requires PublishedFree(s, i, StepOf(s, i, o).run.txn)
    ensures PublishedFree(Apply(s, Step(i, o)), j, Apply(s, Step(i, o)).runs[j].txn)
  {
    StepTables(s, i, o);
  }

  lemma QueueStaysFree(s: State, i: nat, o: Oracle, j: nat)
    requires i < |s.runs| && j < |s.runs| && StepOf(s, i, o).Next?
    requires StepOf(s, i, o).commits ==> StepOf(s, i, o).run.txn == NO_TXN
    requires QueueFree(s, i, s.runs[i].txn) && QueueFree(s, j, s.runs[j].txn)
    requires QueueFree(s, i, StepOf(s, i, o).run.txn)
    ensures QueueFree(Apply(s, Step(i, o)), j, Apply(s, Step(i, o)).runs[j].txn)
  {
    StepTables(s, i, o);
  }

  lemma ApplyKeepsPendingOk(s: State, e: Event)
    requires Inv(s)
    ensures PendingOk(Apply(s, e))
  {
    var t := Apply(s, e);
    forall j | 0 <= j < |t.runs| ensures PendingRowsOk(t, j) {
      if j < |s.runs| {
        assert PendingRowsOk(s, j);
        if e.Step? && e.i < |s.runs| && StepOf(s, e.i, e.o).Next? {
          StepKeepsFree(s, e.i, e.o, j);
        }
      }
    }
  }

  /** A step of i leaves a row that j has locked. */
  lemma StepKeepsLock(s: State, i: nat, o: Oracle, j: nat)
    requires Inv(s) && i < |s.runs| && StepOf(s, i, o).Next?
    requires j < |s.runs| && Apply(s, Step(i, o)).runs[j].txn.lock.Some?
    ensures LockOk(Apply(s, Step(i, o)), j)
  {
    StepTables(s, i, o);
    StepSource(s, i, o);
    FlushedRows(s, i);
    if i == j {
      StepLocks(s, i, o);
    } else {
      assert RunOk(s, j) && LockOk(s, j);
      assert StagedFree(s, i, s.runs[i].txn);
    }
  }

  lemma ApplyKeepsLock(s: State, e: Event, j: nat)
    requires Inv(s) && j < |Apply(s, e).runs| && Apply(s, e).runs[j].txn.lock.Some?
    ensures LockOk(Apply(s, e), j)
  {
    if e.Step? && e.i < |s.runs| && StepOf(s, e.i, e.o).Next? {
      StepKeepsLock(s, e.i, e.o, j);
    } else {
      assert j < |s.runs| && Apply(s, e).runs[j] == s.runs[j] && LockOk(s, j);
      assert RunOk(s, j);
    }
  }

  lemma ApplyKeepsLocksOk(s: State, e: Event)
    requires Inv(s)
    ensures LocksOk(Apply(s, e))
  {
    forall j | 0 <= j < |Apply(s, e).runs| && Apply(s, e).runs[j].txn.lock.Some? ensures LockOk(Apply(s, e), j) {
      ApplyKeepsLock(s, e, j);
    }
  }

  lemma ApplyKeepsInv(s: State, e: Event)
    requires Inv(s)
    ensures Inv(Apply(s, e))
  {
    ApplyKeepsRunsOk(s, e);
    ApplyKeepsStagingOk(s, e);
    ApplyKeepsPublishedOk(s, e);
    ApplyKeepsPendingOk(s, e);
    ApplyKeepsLocksOk(s, e);
  }

  /** Every state reachable by any events from any valid seed is in order. */
  lemma {:induction false} ReachableInv(seed: seq<PublishedRow>, events: seq<Event>)
    requires ValidSeed(seed)
    ensures Inv(Exec(Init(seed), events))
  {
    if events != [] {
      var before := events[..|events| - 1];
      ReachableInv(seed, before);
      ApplyKeepsInv(Exec(Init(seed), before), events[|events| - 1]);
    }
  }

  /** The keys of the tables, column by column: two rows of published.records differ in published_ref
      and in run_id, two of staging.records in staging_ref and in dataset_key or run_id, two of the
      queue in run_id. */
  lemma KeysAreUnique(seed: seq<PublishedRow>, events: seq<Event>)
    requires ValidSeed(seed)
    ensures var s := Exec(Init(seed), events);
      && (forall k, l | 0 <= k < l < |s.published| ::
            s.published[k].ref != s.published[l].ref && s.published[k].uuid != s.published[l].uuid)
      && (forall k, l | 0 <= k < l < |s.queue| :: s.queue[k].uuid != s.queue[l].uuid)
      && (forall ref <- s.staging :: s.staging[ref].ref == ref)
      && (forall a, b | a in s.staging && b in s.staging && a != b ::
            s.staging[a].key != s.staging[b].key || s.staging[a].uuid != s.staging[b].uuid)
  {
    ReachableInv(seed, events);
    var s := Exec(Init(seed), events);
    forall k, l | 0 <= k < l < |s.published|
      ensures s.published[k].ref != s.published[l].ref && s.published[k].uuid != s.published[l].uuid
    {
      assert !SamePublished(s.published[k], s.published[l]);
    }
    forall a, b | a in s.staging && b in s.staging && a != b
      ensures s.staging[a].key != s.staging[b].key || s.staging[a].uuid != s.staging[b].uuid
    {
      assert !SameStaged(s.staging[a], s.staging[b]);
    }
    assert forall ref <- s.staging :: Authentic(s, ref, s.staging[ref]);
  }

  // ---------------------------------------------------------------- names

  /** The names of an invocation are the ones printed from its request. */
  predicate WellNamed(spec: Spec) {
    && spec.ref == Print(spec.key, spec.runId)
    && spec.publishedRef == PrintPublished(spec.key, spec.runId)
    && spec.uuid == UuidOf(spec.runId) && spec.castable == Castable(spec.runId)
  }

  ghost predicate NamesOk(s: State) {
    forall i | 0 <= i < |s.runs| :: WellNamed(s.runs[i].spec)
  }

  lemma ApplyKeepsNames(s: State, e: Event)
    requires NamesOk(s)
    ensures NamesOk(Apply(s, e))
  {
    ApplyKeepsSpecs(s, e);
    forall i | 0 <= i < |Apply(s, e).runs| ensures WellNamed(Apply(s, e).runs[i].spec) {
      if i < |s.runs| {
        assert WellNamed(s.runs[i].spec);
      }
    }
  }

  /** Every invocation goes by the names printed from its request. */
  lemma {:induction false} ReachableNames(seed: seq<PublishedRow>, events: seq<Event>)
    ensures NamesOk(Exec(Init(seed), events))
  {
    if events != [] {
      ReachableNames(seed, events[..|events| - 1]);
      ApplyKeepsNames(Exec(Init(seed), events[..|events| - 1]), events[|events| - 1]);
    }
  }

  lemma NamesAreInjective(a: Spec, b: Spec)
    requires WellNamed(a) && WellNamed(b) && '/' !in a.key && '/' !in b.key
    ensures a.ref == b.ref ==> a.key == b.key && a.runId == b.runId && a.uuid == b.uuid
    ensures a.publishedRef == b.publishedRef ==> a.key == b.key && a.runId == b.runId && a.uuid == b.uuid
  {
    if a.ref == b.ref {
      PrintIsInjective(a.key, a.runId, b.key, b.runId);
    }
    if a.publishedRef == b.publishedRef {
      PrintPublishedIsInjective(a.key, a.runId, b.key, b.runId);
    }
  }
}
