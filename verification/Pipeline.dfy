/** core/pipeline.py, core/publisher.py, core/review_queue.py and the staging writer in the form
    they are written: methods that execute statements one after another on shared tables, with
    other invocations running in between. Every statement is checked against the state machine, so
    what holds of all its event sequences holds of these methods. */
module Pipeline {
  import opened Wrappers
  import opened Json
  import opened Models
  import opened StagingRef
  import opened Protocol
  import opened Invariants
  import opened Evidence
  import opened Accounting
  import opened Snapshots
  import opened Traces
  import opened Causes
  import opened Scripts
  import opened Completion

  /** How one part of `run` ends: it goes on, it raises one of the exceptions `run` catches, or
      something else leaves `run`. */
  datatype Ended = Succeeded | Refused(error: ErrorKind) | Threw

  /** What the end of a part says about the invocation. */
  predicate Tells(e: Ended, r: Run) {
    match e
    case Succeeded => !r.pc.ErrorAudit? && !r.pc.Escaped?
    case Refused(k) => r.pc.ErrorAudit? && r.error == Some(k)
    case Threw => r.pc.Escaped?
  }

  /** The report decides the gate. */
  predicate AtChosenGate(r: Run) {
    r.report.Some? && r.pc == if r.report.value.AllPassed() then PublishRead else RouteQueue
  }

  /** The RunResult of an invocation that returned, completed at the given clock reading. */
  function ResultOf(r: Run, completedAt: int): RawRunResult {
    RunResult(r.spec.runId, if r.pc.Returned? then r.pc.status else RunStatus.Errored, ReportOf(r), r.spec.ref,
              if r.pc.Returned? && r.pc.status.Published? then Some(r.spec.publishedRef) else None,
              if r.pc.Returned? && r.pc.status.Errored? then r.error else None, r.startedAt, completedAt)
  }

  /** Published if every assertion passed, queued otherwise, and audited. */
  predicate Concluded(r: Run) {
    r.report.Some? && r.pc == Returned(if r.report.value.AllPassed() then Published else RoutedToReview, true)
  }

  /** `dict(row["payload"])` of a row the view shows. */
  predicate ShowsAs(payload: Value, ended: Ended, reference: Option<Value>) {
    if payload.Obj? then ended == Succeeded && reference == Some(payload)
    else if payload == Arr([]) then ended == Succeeded && reference == Some(Obj(map[]))
    else ended == Threw
  }

  class Database {
    var staging: map<string, StagedRow>
    var published: seq<PublishedRow>
    var audit: seq<AuditRow>
    var queue: seq<QueueRow>
    /** Every invocation so far: its local variables and its open transaction. */
    var sessions: seq<Run>

    ghost const seed: seq<PublishedRow>
    /** Everything that has happened. */
    ghost var trace: seq<Event>

    ghost function Now(): State
      reads this
    {
      State(staging, published, audit, queue, sessions)
    }

    ghost predicate Valid()
      reads this
    {
      ValidSeed(seed) && Now() == Exec(Init(seed), trace)
    }

    constructor (seed: seq<PublishedRow>)
      requires ValidSeed(seed)
      ensures Valid() && this.seed == seed && trace == [] && published == seed && sessions == []
    {
      staging, published, audit, queue, sessions := map[], seed, [], [], [];
      this.seed, trace := seed, [];
    }

    /** An event of the environment or of another invocation. */
    method Happen(e: Event)
      requires Valid()
      modifies this
      ensures Valid() && trace == old(trace) + [e] && Now() == Apply(old(Now()), e)
    {
      var t := Apply(State(staging, published, audit, queue, sessions), e);
      staging, published, audit, queue, sessions := t.staging, t.published, t.audit, t.queue, t.runs;
      trace := trace + [e];
      assert trace[..|trace| - 1] == old(trace);
    }

    /** The invocation is between two statements of its script. */
    ghost predicate Going(me: nat, script: Script, from: seq<Event>)
      reads this
    {
      Valid() && me < |sessions| && Played(seed, from, me, script, trace)
    }

    /** The other events before its next statement have happened. */
    ghost predicate Waiting(me: nat, script: Script, from: seq<Event>)
      reads this
    {
      Valid() && me < |sessions| && Awaited(seed, from, me, script, trace, sessions[me].pc)
    }

    /** The given events happen, but for the invocation's own. */
    method HappenAll(me: nat, others: seq<Event>)
      requires Valid() && me < |sessions|
      modifies this
      ensures Valid() && trace == old(trace) + Others(others, me)
      ensures |old(sessions)| <= |sessions| && sessions[me] == old(sessions)[me]
    {
      ghost var begun := trace;
      OthersAt(begun, others, 0, me);
      for k := 0 to |others|
        invariant Valid() && trace == After(begun, others, k, me)
        invariant |old(sessions)| <= |sessions| && sessions[me] == old(sessions)[me]
      {
        OthersAt(begun, others, k, me);
        HappenOther(me, others[k]);
      }
      OthersAt(begun, others, |others|, me);
    }

    method HappenOther(me: nat, e: Event)
      requires Valid() && me < |sessions|
      modifies this
      ensures Valid() && trace == if Mine(e, me) then old(trace) else old(trace) + [e]
      ensures |old(sessions)| <= |sessions| && sessions[me] == old(sessions)[me]
    {
      if !Mine(e, me) {
        ApplyKeepsSpecs(Now(), e);
        Happen(e);
      }
    }

    /** Before a statement of one invocation, the others that the script names happen. */
    method Interfere(me: nat, script: Script, ghost from: seq<Event>)
      requires Going(me, script, from)
      modifies this
      ensures Waiting(me, script, from) && old(trace) <= trace
      ensures |old(sessions)| <= |sessions| && sessions[me] == old(sessions)[me]
    {
      HappenAll(me, script(sessions[me].pc).others);
      OthersBegin(seed, from, me, script, old(trace), trace);
    }

    /** The invocation's session moves on without a commit, as its statement makes of its oracle. */
    method Become(me: nat, script: Script, ghost from: seq<Event>, r: Run)
      requires Waiting(me, script, from) && Moves(Now(), me, script(sessions[me].pc).oracle, r, false)
      modifies this`sessions, this`trace
      ensures Going(me, script, from) && old(trace) <= trace
      ensures sessions == old(sessions)[me := r]
    {
      TurnEnds(seed, from, me, script, trace, sessions[me].pc);
      trace := trace + [Step(me, Met(Now(), me, script(sessions[me].pc).oracle))];
      sessions := sessions[me := r];
      assert trace[..|trace| - 1] == old(trace);
    }

    /** COMMIT of the invocation's transaction: its pending rows become visible together. */
    method Commit(me: nat, script: Script, ghost from: seq<Event>, r: Run)
      requires Waiting(me, script, from) && Moves(Now(), me, script(sessions[me].pc).oracle, r, true)
      modifies this
      ensures Going(me, script, from) && old(trace) <= trace
      ensures Now() == Flush(old(Now()), old(sessions[me].txn)).(runs := old(sessions)[me := r])
    {
      TurnEnds(seed, from, me, script, trace, sessions[me].pc);
      trace := trace + [Step(me, Met(Now(), me, script(sessions[me].pc).oracle))];
      var t := sessions[me].txn;
      if t.staged.Some? {
        staging := staging[t.staged.value.ref := t.staged.value];
      }
      published := published + Opt(t.published);
      audit := audit + Opt(t.audit);
      queue := queue + Opt(t.queued);
      sessions := sessions[me := r];
      assert trace[..|trace| - 1] == old(trace);
    }

    // -------------------------------------------------------------- run, part by part

    /** What every part of `run` keeps. */
    twostate predicate Continues(me: nat)
      reads this
    {
      && Valid() && old(trace) <= trace
      && me < |old(sessions)| <= |sessions|
      && sessions[me].spec == old(sessions)[me].spec && sessions[me].startedAt == old(sessions)[me].startedAt
    }

    /** The row of the invocation is in staging, with the payload submitted. */
    ghost predicate HasStaged(me: nat)
      reads this
    {
      && me < |sessions| && sessions[me].spec.Stageable() && sessions[me].spec.castable
      && sessions[me].spec.ref in staging && staging[sessions[me].spec.ref] == StagedRowOf(me, sessions[me].spec)
    }

    /** `PostgresStagingWriter.write`: the validators, then INSERT and COMMIT. The wait of an insert
        for another transaction's uncommitted row is part of the interference before it; a wait that
        has not ended by then ends as a database error. */
    method Write(me: nat, script: Script, ghost from: seq<Event>) returns (ended: Ended)
      requires Going(me, script, from) && sessions[me].pc.Staging?
      modifies this
      ensures Continues(me) && Going(me, script, from) && Tells(ended, sessions[me])
      ensures ended.Succeeded? ==> sessions[me].pc.ReadBack? && HasStaged(me)
      ensures ended.Refused? ==> ended.error == WriteFailed
      ensures var f, spec := script(Staging).oracle.fault, old(sessions[me].spec);
        && (f.Killed? || (f.OtherError? && spec.Stageable()) ==> ended.Threw?)
        && (!f.Killed? && !spec.Stageable() ==> ended.Refused?)
        && (f.DbError? || (f.NoFault? && !spec.castable) ==> ended.Refused?)
    {
      Interfere(me, script, from);
      var r, o := sessions[me], script(sessions[me].pc).oracle;
      StagingTurn(Now(), me, o);
      if o.fault.Killed? {
        Become(me, script, from, Escape(r, None));
        return Threw;
      }
      if !r.spec.Stageable() {
        Become(me, script, from, Fail(r, WriteFailed, o.now));
        return Refused(WriteFailed);
      }
      var row := StagedRowOf(me, r.spec);
      var s := State(staging, published, audit, queue, sessions);
      if o.fault.OtherError? {
        Become(me, script, from, Escape(r, None));
        return Threw;
      }
      if o.fault.DbError? || !r.spec.castable || StagedTaken(s, row) {
        Become(me, script, from, Fail(r, WriteFailed, o.now));
        return Refused(WriteFailed);
      }
      if StagedHeld(s, me, row) {
        // the wait has not ended
        Become(me, script, from, Fail(r, WriteFailed, o.now));
        return Refused(WriteFailed);
      }
      Become(me, script, from, r.(pc := StagingCommit, txn := NO_TXN.(staged := Some(row))));
      ended := FinishWrite(me, script, from);
    }

    /** The commit of a staging write. */
    method FinishWrite(me: nat, script: Script, ghost from: seq<Event>) returns (ended: Ended)
      requires Going(me, script, from) && sessions[me].pc.StagingCommit?
      modifies this
      ensures Continues(me) && Going(me, script, from) && Tells(ended, sessions[me])
      ensures ended.Succeeded? ==> sessions[me].pc.ReadBack? && HasStaged(me)
      ensures ended.Refused? ==> ended.error == WriteFailed
      ensures ended == match script(StagingCommit).oracle.fault
                       case NoFault => Succeeded
                       case DbError => Refused(WriteFailed)
                       case _ => Threw
    {
      Interfere(me, script, from);
      ReachableInv(seed, trace);
      assert RunOk(Now(), me);
      var r, o := sessions[me], script(sessions[me].pc).oracle;
      StagingCommitTurn(Now(), me, o);
      match o.fault {
        case NoFault =>
          Commit(me, script, from, r.(pc := ReadBack, landed := true, txn := NO_TXN));
          return Succeeded;
        case DbError =>
          if o.ackLost {
            Commit(me, script, from, Fail(r.(landed := true), WriteFailed, o.now));
          } else {
            Become(me, script, from, Fail(r, WriteFailed, o.now));
          }
          return Refused(WriteFailed);
        case _ =>
          if o.ackLost { Commit(me, script, from, Escape(r.(landed := true), None)); } else { Become(me, script, from, Escape(r, None)); }
          return Threw;
      }
    }

    /** `PostgresStagingWriter.read`. */
    method Read(me: nat, script: Script, ghost from: seq<Event>) returns (ended: Ended)
      requires Going(me, script, from) && sessions[me].pc.ReadBack?
      modifies this
      ensures Continues(me) && Going(me, script, from) && Tells(ended, sessions[me])
      ensures ended.Succeeded? ==> sessions[me].pc.Resolving?
      ensures ended.Succeeded? ==>
        sessions[me].spec.ref in staging && sessions[me].staged == Some(staging[sessions[me].spec.ref])
      ensures !RefRunId(old(sessions[me].spec.runId)) ==> !ended.Succeeded?
      ensures ended.Refused? ==> ended.error == ReadBackFailed
      ensures var f := script(ReadBack).oracle.fault;
        ended == if f.Killed? then Threw
                 else if !RefRunId(sessions[me].spec.runId) then Refused(ReadBackFailed)
                 else if f.OtherError? then Threw
                 else if f.DbError? || sessions[me].spec.ref !in staging then Refused(ReadBackFailed)
                 else Succeeded
    {
      Interfere(me, script, from);
      var r, o := sessions[me], script(sessions[me].pc).oracle;
      ReadBackTurn(Now(), me, o);
      var ref := r.spec.ref;
      if o.fault.Killed? {
        Become(me, script, from, Escape(r, None));
        return Threw;
      }
      if !RefRunId(r.spec.runId) {
        Become(me, script, from, Fail(r, ReadBackFailed, o.now));
        return Refused(ReadBackFailed);
      }
      if o.fault.OtherError? {
        Become(me, script, from, Escape(r, None));
        return Threw;
      }
      if o.fault.DbError? || ref !in staging {
        Become(me, script, from, Fail(r, ReadBackFailed, o.now));
        return Refused(ReadBackFailed);
      }
      Become(me, script, from, r.(pc := Resolving, staged := Some(staging[ref])));
      return Succeeded;
    }

    /** `resolve` of the snapshot source, or of an external one that the oracle answers for. */
    method Resolve(me: nat, script: Script, ghost from: seq<Event>) returns (ended: Ended)
      requires Going(me, script, from) && sessions[me].pc.Resolving?
      modifies this
      ensures Continues(me) && Going(me, script, from) && Tells(ended, sessions[me])
      ensures ended.Succeeded? ==> sessions[me].pc.Asserting? && sessions[me].reference.Some?
      ensures ended.Succeeded? && sessions[me].spec.source.Snapshot? ==>
        var k := sessions[me].snapshot;
        k.Some? && IsLatest(published, sessions[me].spec.key, k.value)
        && sessions[me].reference == AsDict(published[k.value].payload)
      ensures ended.Refused? ==> ended.error == ReferenceFailed
      ensures var o, spec := script(Resolving).oracle, sessions[me].spec;
        match o.fault
        case Killed | OtherError => ended == Threw
        case DbError => ended == Refused(ReferenceFailed)
        case NoFault =>
          if spec.source.External? then ended == Succeeded && sessions[me].reference == Some(o.external)
          else if !HasRows(published, spec.key) then ended == Refused(ReferenceFailed)
          else exists k: nat :: IsLatest(published, spec.key, k) && ShowsAs(published[k].payload, ended, sessions[me].reference)
    {
      Interfere(me, script, from);
      var r, o := sessions[me], script(sessions[me].pc).oracle;
      if !o.fault.NoFault? || r.spec.source.External? {
        ResolvingTurn(Now(), me, o);
      }
      if o.fault.Killed? || o.fault.OtherError? {
        Become(me, script, from, Escape(r, None));
        return Threw;
      }
      if o.fault.DbError? {
        Become(me, script, from, Fail(r, ReferenceFailed, o.now));
        return Refused(ReferenceFailed);
      }
      if r.spec.source.External? {
        Become(me, script, from, r.(pc := Asserting, reference := Some(o.external)));
        return Succeeded;
      }
      ended := ResolveSnapshot(me, script, from);
    }

    /** The query of the snapshot view. */
    method ResolveSnapshot(me: nat, script: Script, ghost from: seq<Event>) returns (ended: Ended)
      requires Waiting(me, script, from) && sessions[me].pc.Resolving? && sessions[me].spec.source.Snapshot?
      requires script(Resolving).oracle.fault.NoFault?
      modifies this
      ensures Continues(me) && Going(me, script, from) && Tells(ended, sessions[me])
      ensures ended.Succeeded? ==> sessions[me].pc.Asserting? && sessions[me].reference.Some?
      ensures ended.Succeeded? ==>
        var k := sessions[me].snapshot;
        k.Some? && IsLatest(published, sessions[me].spec.key, k.value)
        && sessions[me].reference == AsDict(published[k.value].payload)
      ensures ended.Refused? ==> ended.error == ReferenceFailed
      ensures if !HasRows(published, sessions[me].spec.key) then ended == Refused(ReferenceFailed)
              else exists k: nat :: IsLatest(published, sessions[me].spec.key, k)
                                    && ShowsAs(published[k].payload, ended, sessions[me].reference)
    {
      var r, o := sessions[me], script(sessions[me].pc).oracle;
      ResolvingTurn(Now(), me, o);
      var row := Latest(published, r.spec.key);
      if row.None? {
        Become(me, script, from, Fail(r, ReferenceFailed, o.now));
        return Refused(ReferenceFailed);
      }
      var k := if IsLatest(published, r.spec.key, o.pick) then o.pick else row.value;
      var dict := AsDict(published[k].payload);
      if dict.None? {
        Become(me, script, from, Escape(r, None));
        return Threw;
      }
      Become(me, script, from, r.(pc := Asserting, snapshot := Some(k), reference := dict));
      return Succeeded;
    }

    /** The assertions, the report, and the choice of gate. */
    method Assert(me: nat, script: Script, ghost from: seq<Event>) returns (ended: Ended)
      requires Going(me, script, from) && sessions[me].pc.Asserting?
      modifies this
      ensures Continues(me) && Going(me, script, from) && Tells(ended, sessions[me]) && !ended.Refused?
      ensures ended.Succeeded? ==> AtChosenGate(sessions[me])
      ensures ended.Succeeded? ==>
        var r := sessions[me];
        r.staged == old(sessions[me].staged) && r.staged.Some? && r.reference == old(sessions[me].reference) && r.reference.Some?
        && RunAll(r.spec.assertions, r.staged.value.payload, r.reference.value) == Some(r.report.value.results)
      ensures ended == if script(Asserting).oracle.fault.Killed? || Unreportable(old(sessions[me])) then Threw else Succeeded
      ensures ended.Succeeded? ==> sessions[me].stamp == script(Asserting).oracle.now
    {
      Interfere(me, script, from);
      ReachableInv(seed, trace);
      assert RunOk(Now(), me) && PcOk(sessions[me]);
      var r, o := sessions[me], script(sessions[me].pc).oracle;
      AssertingTurn(Now(), me, o);
      if o.fault.Killed? {
        Become(me, script, from, Escape(r, None));
        return Threw;
      }
      var results := RunAll(r.spec.assertions, r.staged.value.payload, r.reference.value);
      if results.None? {
        Become(me, script, from, Escape(r, None));
        return Threw;
      }
      var report := Report(r.spec.runId, results.value);
      var gate := if report.AllPassed() then PublishRead else RouteQueue;
      Become(me, script, from, r.(report := Some(report), stamp := o.now, pc := gate));
      return Succeeded;
    }

    /** The published row and the audit row of the invocation are the last ones of their tables. */
    ghost predicate HasPublished(me: nat)
      reads this
    {
      && me < |sessions| && 0 < |published| && 0 < |audit|
      && published[|published| - 1] == PublishedRowOf(me, sessions[me])
      && audit[|audit| - 1] == AuditRowOf(me, sessions[me], Published)
    }

    /** The queue row and the audit row of the invocation are the last ones of their tables. */
    ghost predicate HasQueued(me: nat)
      reads this
    {
      && me < |sessions| && 0 < |queue| && 0 < |audit|
      && queue[|queue| - 1] == QueueRowOf(me, sessions[me])
      && audit[|audit| - 1] == AuditRowOf(me, sessions[me], RoutedToReview)
    }

    /** `Publisher.promote` past its gate: SELECT ... FOR SHARE, the two inserts, COMMIT. */
    method Promote(me: nat, script: Script, ghost from: seq<Event>) returns (ended: Ended)
      requires Going(me, script, from) && sessions[me].pc.PublishRead?
      modifies this
      ensures Continues(me) && Going(me, script, from) && Tells(ended, sessions[me])
      ensures ended.Succeeded? ==> sessions[me].pc == Returned(Published, true) && HasPublished(me)
      ensures ended.Refused? ==> ended.error == PublishRefused
      ensures !script(PublishRead).oracle.fault.NoFault? ==> ended.Threw?
    {
      Interfere(me, script, from);
      var r, o := sessions[me], script(sessions[me].pc).oracle;
      PublishReadTurn(Now(), me, o);
      var ref := r.spec.ref;
      if !o.fault.NoFault? {
        Become(me, script, from, Escape(r, None));
        return Threw;
      }
      if ref !in staging {
        Become(me, script, from, Fail(r, PublishRefused, o.now));
        return Refused(PublishRefused);
      }
      Become(me, script, from, r.(pc := PublishInsert, promoted := Some(staging[ref]), txn := NO_TXN.(lock := Some(ref))));
      ended := InsertPublished(me, script, from);
    }

    /** The published insert, with the staging row locked. */
    method InsertPublished(me: nat, script: Script, ghost from: seq<Event>) returns (ended: Ended)
      requires Going(me, script, from) && sessions[me].pc.PublishInsert?
      modifies this
      ensures Continues(me) && Going(me, script, from) && Tells(ended, sessions[me])
      ensures ended.Succeeded? ==> sessions[me].pc == Returned(Published, true) && HasPublished(me)
      ensures ended.Refused? ==> ended.error == PublishRefused
      ensures !script(PublishInsert).oracle.fault.NoFault? ==> ended.Threw?
    {
      Interfere(me, script, from);
      var r, o := sessions[me], script(sessions[me].pc).oracle;
      PublishInsertTurn(Now(), me, o);
      var row := PublishedRowOf(me, r);
      var s := State(staging, published, audit, queue, sessions);
      if !o.fault.NoFault? {
        Become(me, script, from, Escape(r, None));
        return Threw;
      }
      if PublishedTaken(s, row) {
        Become(me, script, from, Fail(r, PublishRefused, o.now));
        return Refused(PublishRefused);
      }
      if PublishedHeld(s, me, row) {
        Become(me, script, from, Escape(r, None));
        return Threw;
      }
      Become(me, script, from, r.(pc := PublishAudit, txn := r.txn.(published := Some(row))));
      ended := FinishPublish(me, script, from);
    }

    /** The audit insert of a publish, and its commit. */
    method FinishPublish(me: nat, script: Script, ghost from: seq<Event>) returns (ended: Ended)
      requires Going(me, script, from) && sessions[me].pc.PublishAudit?
      modifies this
      ensures Continues(me) && Going(me, script, from) && Tells(ended, sessions[me]) && !ended.Refused?
      ensures ended.Succeeded? ==> sessions[me].pc == Returned(Published, true) && HasPublished(me)
      ensures ended.Succeeded? <==>
        script(PublishAudit).oracle.fault.NoFault? && script(PublishCommit).oracle.fault.NoFault?
    {
      Interfere(me, script, from);
      var r, o := sessions[me], script(sessions[me].pc).oracle;
      PublishAuditTurn(Now(), me, o);
      if !o.fault.NoFault? {
        Become(me, script, from, Escape(r, None));
        return Threw;
      }
      r := r.(pc := PublishCommit, txn := r.txn.(audit := Some(AuditRowOf(me, r, Published))));
      Become(me, script, from, r);
      ended := FinishOutcome(me, script, from, Published);
    }

    /** `ReviewQueueRouter.route` past its gate: the two inserts, COMMIT. */
    method Route(me: nat, script: Script, ghost from: seq<Event>) returns (ended: Ended)
      requires Going(me, script, from) && sessions[me].pc.RouteQueue?
      modifies this
      ensures Continues(me) && Going(me, script, from) && Tells(ended, sessions[me])
      ensures ended.Succeeded? ==> sessions[me].pc == Returned(RoutedToReview, true) && HasQueued(me)
      ensures ended.Refused? ==> ended.error == RoutingRefused
      ensures !script(RouteQueue).oracle.fault.NoFault? ==> ended.Threw?
    {
      Interfere(me, script, from);
      var r := sessions[me];
      var row := QueueRowOf(me, r);
      var o := script(RouteQueue).oracle;
      RouteQueueTurn(Now(), me, o);
      var s := State(staging, published, audit, queue, sessions);
      if !o.fault.NoFault? {
        Become(me, script, from, Escape(r, None));
        return Threw;
      }
      if QueueTaken(s, row) {
        Become(me, script, from, Fail(r, RoutingRefused, o.now));
        return Refused(RoutingRefused);
      }
      if QueueHeld(s, me, row) {
        Become(me, script, from, Escape(r, None));
        return Threw;
      }
      Become(me, script, from, r.(pc := RouteAudit, txn := NO_TXN.(queued := Some(row))));
      ended := FinishRoute(me, script, from);
    }

    /** The audit insert of a referral, and its commit. */
    method FinishRoute(me: nat, script: Script, ghost from: seq<Event>) returns (ended: Ended)
      requires Going(me, script, from) && sessions[me].pc.RouteAudit?
      modifies this
      ensures Continues(me) && Going(me, script, from) && Tells(ended, sessions[me]) && !ended.Refused?
      ensures ended.Succeeded? ==> sessions[me].pc == Returned(RoutedToReview, true) && HasQueued(me)
      ensures ended.Succeeded? <==>
        script(RouteAudit).oracle.fault.NoFault? && script(RouteCommit).oracle.fault.NoFault?
    {
      Interfere(me, script, from);
      var r, o := sessions[me], script(sessions[me].pc).oracle;
      RouteAuditTurn(Now(), me, o);
      if !o.fault.NoFault? {
        Become(me, script, from, Escape(r, None));
        return Threw;
      }
      r := r.(pc := RouteCommit, txn := r.txn.(audit := Some(AuditRowOf(me, r, RoutedToReview))));
      Become(me, script, from, r);
      ended := FinishOutcome(me, script, from, RoutedToReview);
    }

    /** What the open transaction of an invocation is about to commit. */
    lemma Pending(me: nat)
      requires Valid() && me < |sessions|
      ensures var r := sessions[me]; var t := r.txn;
        && (r.pc.PublishCommit? ==>
              t.published == Some(PublishedRowOf(me, r)) && t.audit == Some(AuditRowOf(me, r, Published)) && t.queued.None?)
        && (r.pc.RouteCommit? ==>
              t.queued == Some(QueueRowOf(me, r)) && t.audit == Some(AuditRowOf(me, r, RoutedToReview)) && t.published.None?)
    {
      ReachableInv(seed, trace);
      assert RunOk(Now(), me);
    }

    /** The acknowledged commit of a publish or of a referral. */
    method Acknowledge(me: nat, script: Script, ghost from: seq<Event>, status: RunStatus)
      requires Waiting(me, script, from) && script(sessions[me].pc).oracle.fault.NoFault? && !status.Errored?
      requires sessions[me].pc == match status case Published => PublishCommit case _ => RouteCommit
      modifies this
      ensures Going(me, script, from) && old(trace) <= trace
      ensures sessions == old(sessions)[me := old(sessions)[me].(pc := Returned(status, true), txn := NO_TXN)]
      ensures if status.Published? then HasPublished(me) else HasQueued(me)
    {
      Pending(me);
      var r := sessions[me];
      OutcomeCommitTurn(Now(), me, script(r.pc).oracle, status);
      Commit(me, script, from, r.(pc := Returned(status, true), txn := NO_TXN));
    }

    /** The commit of a publish or of a referral. */
    method FinishOutcome(me: nat, script: Script, ghost from: seq<Event>, status: RunStatus) returns (ended: Ended)
      requires Going(me, script, from)
      requires sessions[me].pc == match status case Published => PublishCommit case _ => RouteCommit
      requires !status.Errored?
      modifies this
      ensures Continues(me) && Going(me, script, from) && Tells(ended, sessions[me]) && !ended.Refused?
      ensures ended.Succeeded? ==> sessions[me].pc == Returned(status, true)
      ensures ended.Succeeded? ==> if status.Published? then HasPublished(me) else HasQueued(me)
      ensures ended.Succeeded? <==>
        script(if status.Published? then PublishCommit else RouteCommit).oracle.fault.NoFault?
    {
      Interfere(me, script, from);
      var r, o := sessions[me], script(sessions[me].pc).oracle;
      OutcomeCommitTurn(Now(), me, o, status);
      if o.fault.NoFault? {
        Acknowledge(me, script, from, status);
        return Succeeded;
      }
      if o.ackLost {
        Commit(me, script, from, Escape(r, Some(status)));
      } else {
        Become(me, script, from, Escape(r, None));
      }
      return Threw;
    }

    /** The invocation returned ERRORED, with exactly its audit row if that was committed, and with
        no audit row otherwise. */
    ghost predicate EndsErrored(me: nat)
      reads this
    {
      && me < |sessions| && sessions[me].pc.Returned? && sessions[me].pc.status.Errored?
      && var r := sessions[me];
      && r.error.Some?
      && AuditBy(audit, me) ==
           if !r.pc.audited then []
           else [AuditRow(me, r.spec.uuid, r.spec.key, RunStatus.Errored,
                          if r.report.Some? then r.report.value else Report(r.spec.runId, []),
                          r.spec.ref, None, r.error, r.startedAt, r.stamp)]
    }

    lemma ErrorSettled(me: nat)
      requires Valid() && me < |sessions| && sessions[me].pc.Returned? && sessions[me].pc.status.Errored?
      ensures EndsErrored(me)
    {
      Settled(me);
      ReachableInv(seed, trace);
      assert RunOk(Now(), me) && PcOk(sessions[me]);
    }

    twostate predicate KeepsError(me: nat)
      reads this
    {
      && me < |old(sessions)| && me < |sessions|
      && sessions[me].error == old(sessions)[me].error && sessions[me].report == old(sessions)[me].report
    }

    /** `_errored`: its own audit row, and whatever happens to that, the ERRORED result. Only the
        death of the process keeps it from returning. */
    method Errored(me: nat, script: Script, ghost from: seq<Event>) returns (returned: bool)
      requires Going(me, script, from) && sessions[me].pc.ErrorAudit?
      modifies this
      ensures Continues(me) && Going(me, script, from) && KeepsError(me)
      ensures returned ==> EndsErrored(me)
      ensures !returned ==> sessions[me].pc.Escaped?
      ensures var first, last := script(ErrorAudit).oracle.fault, script(ErrorCommit).oracle;
        var inserted := first.NoFault? && old(sessions[me].spec.castable);
        && (returned <==> !first.Killed? && !(inserted && last.fault.Killed?))
        && (returned ==> (sessions[me].pc.audited <==> inserted && (Reached(last))))
    {
      Interfere(me, script, from);
      var r, o := sessions[me], script(sessions[me].pc).oracle;
      ErrorAuditTurn(Now(), me, o);
      if o.fault.Killed? {
        Become(me, script, from, Escape(r, None));
        return false;
      }
      if !o.fault.NoFault? || !r.spec.castable {
        Become(me, script, from, r.(pc := Returned(RunStatus.Errored, false)));
        ErrorSettled(me);
        return true;
      }
      Become(me, script, from, r.(pc := ErrorCommit, txn := NO_TXN.(audit := Some(AuditRowOf(me, r, RunStatus.Errored)))));
      returned := FinishErrored(me, script, from);
    }

    /** The commit of the audit row of an error. */
    method FinishErrored(me: nat, script: Script, ghost from: seq<Event>) returns (returned: bool)
      requires Going(me, script, from) && sessions[me].pc.ErrorCommit?
      modifies this
      ensures Continues(me) && Going(me, script, from) && KeepsError(me)
      ensures returned ==> EndsErrored(me)
      ensures !returned ==> sessions[me].pc.Escaped?
      ensures returned <==> !script(ErrorCommit).oracle.fault.Killed?
      ensures returned ==> (sessions[me].pc.audited <==> Reached(script(ErrorCommit).oracle))
    {
      Interfere(me, script, from);
      var r, o := sessions[me], script(sessions[me].pc).oracle;
      ErrorCommitTurn(Now(), me, o);
      var audited := o.fault.NoFault? || o.ackLost;
      if o.fault.Killed? {
        if audited { Commit(me, script, from, Escape(r, Some(RunStatus.Errored))); } else { Become(me, script, from, Escape(r, None)); }
        return false;
      }
      r := r.(pc := Returned(RunStatus.Errored, audited), txn := NO_TXN);
      if audited { Commit(me, script, from, r); } else { Become(me, script, from, r); }
      ErrorSettled(me);
      return true;
    }

    /** `run` up to the staging writer: an empty assertion list and a run_id the writer factory
        rejects raise before any statement. */
    method Launch(request: Request, now: int) returns (me: nat)
      requires Valid()
      modifies this`sessions, this`trace
      ensures Valid() && trace == old(trace) + [Event.Launch(request, now)]
      ensures me == |old(sessions)| && sessions == old(sessions) + [Launched(request, now)]
    {
      me := |sessions|;
      sessions := sessions + [Launched(request, now)];
      trace := trace + [Event.Launch(request, now)];
      assert trace[..|trace| - 1] == old(trace);
    }

    /** Steps 1 to 4 of `run`: staging, read-back, reference and assertions. */
    method Stage(me: nat, script: Script, ghost from: seq<Event>) returns (ended: Ended)
      requires Going(me, script, from) && sessions[me].pc.Staging?
      modifies this
      ensures Continues(me) && Going(me, script, from) && Tells(ended, sessions[me])
      ensures ended.Succeeded? ==> AtChosenGate(sessions[me])
    {
      ended := Write(me, script, from);
      if !ended.Succeeded? {
        return;
      }
      ended := Read(me, script, from);
      if ended.Succeeded? {
        ended := Judge(me, script, from);
      }
    }

    /** Steps 3 and 4 of `run`: the reference and the assertions. */
    method Judge(me: nat, script: Script, ghost from: seq<Event>) returns (ended: Ended)
      requires Going(me, script, from) && sessions[me].pc.Resolving?
      modifies this
      ensures Continues(me) && Going(me, script, from) && Tells(ended, sessions[me])
      ensures ended.Succeeded? ==> AtChosenGate(sessions[me])
    {
      ended := Resolve(me, script, from);
      if ended.Succeeded? {
        ended := Assert(me, script, from);
      }
    }

    /** Steps 1 to 5 of `run`: what a part refuses becomes an ERRORED result, what it throws leaves. */
    method Steps(me: nat, script: Script, ghost from: seq<Event>) returns (ended: Ended)
      requires Going(me, script, from) && sessions[me].pc.Staging?
      modifies this
      ensures Continues(me) && Going(me, script, from)
      ensures ended.Succeeded? ==> Concluded(sessions[me])
      ensures ended.Refused? ==> sessions[me].error == Some(ended.error) && (EndsErrored(me) || sessions[me].pc.Escaped?)
      ensures ended.Threw? ==> sessions[me].pc.Escaped?
    {
      ended := Stage(me, script, from);
      if ended.Succeeded? {
        ended := Conclude(me, script, from);
      }
      if ended.Refused? {
        var returned := Errored(me, script, from);
      }
    }

    /** Step 5 of `run`: `_publish` or `_route_to_review`. */
    method Conclude(me: nat, script: Script, ghost from: seq<Event>) returns (ended: Ended)
      requires Going(me, script, from) && AtChosenGate(sessions[me])
      modifies this
      ensures Continues(me) && Going(me, script, from) && Tells(ended, sessions[me])
      ensures ended.Succeeded? ==> Concluded(sessions[me])
    {
      if sessions[me].report.value.AllPassed() {
        ended := Promote(me, script, from);
      } else {
        ended := Route(me, script, from);
      }
      ReachableInv(seed, trace);
      assert RunOk(Now(), me) && PcOk(sessions[me]);
    }

    /** What the state machine guarantees about a finished invocation. */
    lemma Settled(me: nat)
      requires Valid() && me < |sessions| && Finished(sessions[me].pc)
      ensures sessions[me].pc.Returned? ==> forall at :: Claimable(ResultOf(sessions[me], at))
      ensures |seed| <= |published|
      ensures var c := Committed(sessions[me]);
        && AuditBy(audit, me) == (if c.Some? then [AuditRowOf(me, sessions[me], c.value)] else [])
        && PublishedBy(published[|seed|..], me) == (if c == Some(Published) then [PublishedRowOf(me, sessions[me])] else [])
        && QueueBy(queue, me) == (if c == Some(RoutedToReview) then [QueueRowOf(me, sessions[me])] else [])
        && (c == Some(Published) ==> PublishedRowOf(me, sessions[me]) in published)
        && (c == Some(RoutedToReview) ==> QueueRowOf(me, sessions[me]) in queue && sessions[me].report.Some?)
      ensures sessions[me].pc.Returned? && !sessions[me].pc.status.Errored? ==> sessions[me].pc.audited
      ensures sessions[me].pc.Returned? && sessions[me].pc.status.Published? ==> sessions[me].promoted.Some?
    {
      ReachableInv(seed, trace);
      ReachableLedgers(seed, trace);
      assert RunOk(Now(), me) && PcOk(sessions[me]);
      assert Ledger(Now(), |seed|, me);
      PublishedByFrom(published[|seed|..], me);
      QueueByFrom(queue, me);
      if Committed(sessions[me]) == Some(Published) {
        assert PublishedRowOf(me, sessions[me]) in PublishedBy(published[|seed|..], me);
        assert PublishedRowOf(me, sessions[me]) in published[|seed|..];
      }
      if Committed(sessions[me]) == Some(RoutedToReview) {
        assert QueueRowOf(me, sessions[me]) in QueueBy(queue, me);
      }
    }

    /** What `run` answers for a finished invocation; None: it raised, or the process died. `_errored`
        reports its own clock reading as completed_at, the two other outcomes take a new one. */
    method Answer(me: nat, reading: int) returns (result: Option<RunResult>)
      requires Valid() && me < |sessions| && Finished(sessions[me].pc)
      ensures result.Some? <==> sessions[me].pc.Returned?
      ensures result.Some? ==>
        result.value == ResultOf(sessions[me], if result.value.status.Errored? then sessions[me].stamp else reading)
      ensures Answers(me, result)
    {
      Settled(me);
      if !sessions[me].pc.Returned? {
        return None;
      }
      result := Some(ResultOf(sessions[me], if sessions[me].pc.status.Errored? then sessions[me].stamp else reading));
    }

    /** The rows that come with an answer. */
    ghost predicate Answers(me: nat, result: Option<RunResult>)
      reads this
    {
      && me < |sessions| && |seed| <= |published|
      && var r := sessions[me];
      match result
      case None =>
        AuditBy(audit, me) == (match Committed(r) case None => [] case Some(st) => [AuditRowOf(me, r, st)])
      case Some(answer) =>
        match answer.status
        case Published =>
          && PublishedRowOf(me, r) in published && r.promoted.Some? && answer.publishedRef == Some(r.spec.publishedRef)
          && AuditBy(audit, me) == [AuditRowOf(me, r, Published)]
        case RoutedToReview =>
          && QueueRowOf(me, r) in queue && answer.report == QueueRowOf(me, r).report
          && AuditBy(audit, me) == [AuditRowOf(me, r, RoutedToReview)]
        case Errored =>
          && AuditBy(audit, me) <= [AuditRowOf(me, r, RunStatus.Errored)]
          && QueueBy(queue, me) == [] && PublishedBy(published[|seed|..], me) == []
    }

    /** The fields of the result, in terms of the request. */
    ghost predicate Says(answer: RunResult, me: nat, request: Request, now: int, reading: int)
      reads this
    {
      && me < |sessions| && sessions[me].pc.Returned?
      && var r := sessions[me];
      && answer.runId == request.runId && answer.stagingRef == Print(request.key, request.runId)
      && answer.startedAt == now && answer.status == r.pc.status
      && answer.publishedRef == (if answer.status.Published? then Some(PrintPublished(request.key, request.runId)) else None)
      && (if r.report.Some? then answer.report == r.report.value else answer.report == Report(request.runId, []))
      && if answer.status.Errored?
         then answer.error.Some? && Fails(seed, trace, me, answer.error.value, answer.completedAt)
         else answer.error.None? && answer.completedAt == reading
    }

    /** Why `run` answers or raises: it raises exactly if the request was rejected or a statement
        raised; without faults that is a rejection, a snapshot that is no dict, or an assertion with
        an empty name; and a script without faults means no faults unless a run_id is shared. */
    ghost predicate Explained(me: nat, request: Request, script: Script)
      reads this
    {
      && me < |sessions|
      && (sessions[me].pc.Escaped? <==> Rejected(SpecOf(request)) || RaisesOnce(seed, trace, me))
      && (FaultFree(seed, trace, me) ==>
            (sessions[me].pc.Escaped? <==>
               Rejected(SpecOf(request)) || MetNoDict(seed, trace, me) || Unreportable(sessions[me])))
      && ((forall pc :: script(pc).oracle.fault.NoFault?) && Unconflicted(seed, Now(), me) ==> FaultFree(seed, trace, me))
    }

    /** Beside any other invocations: a proper request with a reference, a run_id of its own, no
        fault and no deletion of its row is published if all its assertions pass on its data, queued
        otherwise, and its rows are there field by field. */
    ghost predicate Delivered(me: nat, request: Request, now: int, script: Script)
      reads this
    {
      && me < |sessions|
      && var r := sessions[me];
      if MetNoDict(seed, trace, me) || Unreportable(r) then r.pc == Escaped(None)
      else
        && r.reference.Some? && RunAll(request.assertions, request.data, r.reference.value).Some?
        && ReferenceFrom(seed, trace, me, r.reference.value)
        && (request.source.External? ==> r.reference.value == script(Resolving).oracle.external)
        && Outcome(Now(), me, request, now, script(Asserting).oracle.now,
                   RunAll(request.assertions, request.data, r.reference.value).value)
    }

    lemma Explains(me: nat, request: Request, now: int, script: Script, before: seq<Event>)
      requires Valid() && me < |sessions| && Finished(sessions[me].pc) && sessions[me].spec == SpecOf(request)
      requires me == |Exec(Init(seed), before).runs|
      requires Played(seed, before + [Event.Launch(request, now)], me, script, trace)
      ensures Explained(me, request, script)
      ensures Proper(request) && HasReference(Exec(Init(seed), before).published, SpecOf(request))
              && Undisturbed(script, Print(request.key, request.runId)) && Unconflicted(seed, Now(), me) ==>
        Delivered(me, request, now, script)
    {
      RaisedIffStatementRaised(seed, trace, me);
      if FaultFree(seed, trace, me) {
        FaultFreeRunsAreAudited(seed, trace, me);
      }
      if (forall pc :: script(pc).oracle.fault.NoFault?) && Unconflicted(seed, Now(), me) {
        NoFaults(me, request, now, script, before);
      }
      if Proper(request) && HasReference(Exec(Init(seed), before).published, SpecOf(request))
        && Undisturbed(script, Print(request.key, request.runId)) && Unconflicted(seed, Now(), me)
      {
        RunDelivers(seed, before, request, now, me, script, trace);
      }
    }

    lemma NoFaults(me: nat, request: Request, now: int, script: Script, before: seq<Event>)
      requires Valid() && me < |sessions| && me == |Exec(Init(seed), before).runs|
      requires Played(seed, before + [Event.Launch(request, now)], me, script, trace)
      requires (forall pc :: script(pc).oracle.fault.NoFault?) && Unconflicted(seed, Now(), me)
      ensures FaultFree(seed, trace, me)
    {
      ExecAppend(Init(seed), before, Event.Launch(request, now));
      FaultFreeBefore(seed, before, me);
      FaultFreeSnoc(seed, before, Event.Launch(request, now), me);
      PlayIsFaultFree(seed, before + [Event.Launch(request, now)], me, script, trace);
    }

    lemma AnswerSays(answer: RunResult, me: nat, request: Request, now: int, reading: int)
      requires Valid() && me < |sessions| && sessions[me].pc.Returned?
      requires sessions[me].spec == SpecOf(request) && sessions[me].startedAt == now
      requires answer == ResultOf(sessions[me], if answer.status.Errored? then sessions[me].stamp else reading)
      ensures Says(answer, me, request, now, reading)
    {
      ReachableInv(seed, trace);
      assert RunOk(Now(), me) && PcOk(sessions[me]) && ErrorFits(sessions[me]);
      ErrorIffRefused(seed, trace, me);
    }

    /** `ReconciliationPipeline.run`, with the other invocations, deletions, faults and clock
        readings that the script gives. */
    method Run(request: Request, now: int, script: Script, reading: int) returns (result: Option<RunResult>, me: nat)
      requires Valid()
      modifies this
      ensures Valid() && Played(seed, old(trace) + [Event.Launch(request, now)], me, script, trace)
      ensures me == |old(sessions)| < |sessions| && sessions[me].spec == SpecOf(request) && sessions[me].startedAt == now
      ensures request.assertions == [] || !ValidRunId(request.runId) ==>
        result.None? && staging == old(staging) && published == old(published) && audit == old(audit) && queue == old(queue)
      ensures result.Some? <==> sessions[me].pc.Returned?
      ensures result.None? <==> sessions[me].pc.Escaped?
      ensures result.Some? ==> Says(result.value, me, request, now, reading)
      ensures Answers(me, result) && Explained(me, request, script)
      ensures Proper(request) && HasReference(old(published), SpecOf(request))
              && Undisturbed(script, Print(request.key, request.runId)) && Unconflicted(seed, Now(), me) ==>
        Delivered(me, request, now, script)
    {
      me := Launch(request, now);
      ghost var from := trace;
      PlayedStart(seed, from, me, script);
      if sessions[me].pc.Staging? {
        var ended := Steps(me, script, from);
      }
      result := Answer(me, reading);
      if result.Some? {
        AnswerSays(result.value, me, request, now, reading);
      }
      Explains(me, request, now, script, old(trace));
    }
  }
}
