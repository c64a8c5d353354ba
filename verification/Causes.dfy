/** Why an invocation ended as it did: which of its statements was refused or raised, when, and what
    its rows say about it. */
module Causes {
  import opened Wrappers
  import opened Json
  import opened Models
  import opened StagingRef
  import opened Protocol
  import opened Invariants
  import opened Evidence
  import opened Accounting
  import opened Outcomes
  import opened Traces

  // ---------------------------------------------------------------- one statement

  /** The exception that a refusal at a statement becomes in `run`. */
  function KindAt(pc: Pc): Option<ErrorKind> {
    match pc
    case Staging | StagingCommit => Some(WriteFailed)
    case ReadBack => Some(ReadBackFailed)
    case Resolving => Some(ReferenceFailed)
    case PublishRead | PublishInsert => Some(PublishRefused)
    case RouteQueue => Some(RoutingRefused)
    case _ => None
  }

  predicate InTransaction(pc: Pc) {
    || pc.PublishRead? || pc.PublishInsert? || pc.PublishAudit? || pc.PublishCommit?
    || pc.RouteQueue? || pc.RouteAudit? || pc.RouteCommit?
  }

  /** A staged row has the staging_ref, or the dataset_key and run_id: a unique violation. */
  ghost predicate StagingConflict(s: State, spec: Spec) {
    exists ref <- s.staging ::
      s.staging[ref].ref == spec.ref || (s.staging[ref].key == spec.key && s.staging[ref].uuid == spec.uuid)
  }

  /** A published row has the published_ref or the run_id. */
  ghost predicate PublishedConflict(s: State, spec: Spec) {
    exists p <- s.published :: p.ref == spec.publishedRef || p.uuid == spec.uuid
  }

  /** A queue row has the run_id. */
  ghost predicate QueueConflict(s: State, spec: Spec) {
    exists q <- s.queue :: q.uuid == spec.uuid
  }

  /** The statement ends in an exception that `run` catches. */
  ghost predicate Refuses(s: State, i: nat, o: Oracle)
    requires i < |s.runs|
  {
    var r, f := s.runs[i], o.fault;
    match r.pc
    case Staging =>
      !f.Killed? && (!r.spec.Stageable()
                     || (!f.OtherError? && (f.DbError? || !r.spec.castable || StagingConflict(s, r.spec))))
    case StagingCommit => f.DbError?
    case ReadBack => !f.Killed? && (!RefRunId(r.spec.runId) || f.DbError? || (f.NoFault? && r.spec.ref !in s.staging))
    case Resolving => f.DbError? || (f.NoFault? && r.spec.source.Snapshot? && !HasRows(s.published, r.spec.key))
    case PublishRead => f.NoFault? && r.spec.ref !in s.staging
    case PublishInsert => f.NoFault? && PublishedConflict(s, r.spec)
    case RouteQueue => f.NoFault? && QueueConflict(s, r.spec)
    case _ => false
  }

  /** The statement ends in an exception that leaves `run`, or in the death of the process. */
  ghost predicate Raises(s: State, i: nat, o: Oracle)
    requires i < |s.runs|
  {
    var r, f := s.runs[i], o.fault;
    !Finished(r.pc) &&
      (|| f.Killed?
       || (f.OtherError? && r.pc.Staging? && r.spec.Stageable())
       || (f.OtherError? && r.pc.StagingCommit?)
       || (f.OtherError? && r.pc.ReadBack? && RefRunId(r.spec.runId))
       || (f.OtherError? && r.pc.Resolving?)
       || (!f.NoFault? && InTransaction(r.pc))
       || (f.NoFault? && r.pc.Resolving? && NoDict(s, r.spec, o.pick))
       || (r.pc.Asserting? && Unreportable(r)))
  }

  ghost predicate Refused(s: State, i: nat, o: Oracle)
    requires i < |s.runs|
  {
    StepOf(s, i, o).Next? && StepOf(s, i, o).run.pc.ErrorAudit?
  }

  ghost predicate Raised(s: State, i: nat, o: Oracle)
    requires i < |s.runs|
  {
    StepOf(s, i, o).Next? && StepOf(s, i, o).run.pc.Escaped?
  }

  lemma StagingClassified(s: State, i: nat, o: Oracle)
    requires i < |s.runs| && PcOk(s.runs[i])
    requires var pc := s.runs[i].pc; pc.Staging? || pc.StagingCommit? || pc.ReadBack?
    ensures Refused(s, i, o) <==> Refuses(s, i, o)
    ensures Raised(s, i, o) <==> Raises(s, i, o)
  {
  }

  lemma ResolvingClassified(s: State, i: nat, o: Oracle)
    requires i < |s.runs| && PcOk(s.runs[i]) && s.runs[i].pc.Resolving?
    ensures Refused(s, i, o) <==> Refuses(s, i, o)
    ensures Raised(s, i, o) <==> Raises(s, i, o)
  {
    assert o.pick < |s.published| ==> s.published[o.pick] in s.published;
  }

  lemma AssertingClassified(s: State, i: nat, o: Oracle)
    requires i < |s.runs| && PcOk(s.runs[i]) && s.runs[i].pc.Asserting?
    ensures Refused(s, i, o) <==> Refuses(s, i, o)
    ensures Raised(s, i, o) <==> Raises(s, i, o)
  {
  }

  lemma PublishClassified(s: State, i: nat, o: Oracle)
    requires i < |s.runs| && PcOk(s.runs[i])
    requires var pc := s.runs[i].pc; pc.PublishRead? || pc.PublishInsert? || pc.PublishAudit? || pc.PublishCommit?
    ensures Refused(s, i, o) <==> Refuses(s, i, o)
    ensures Raised(s, i, o) <==> Raises(s, i, o)
  {
  }

  lemma RouteClassified(s: State, i: nat, o: Oracle)
    requires i < |s.runs| && PcOk(s.runs[i])
    requires var pc := s.runs[i].pc; pc.RouteQueue? || pc.RouteAudit? || pc.RouteCommit?
    ensures Refused(s, i, o) <==> Refuses(s, i, o)
    ensures Raised(s, i, o) <==> Raises(s, i, o)
  {
  }

  lemma ErrorClassified(s: State, i: nat, o: Oracle)
    requires i < |s.runs| && PcOk(s.runs[i]) && (s.runs[i].pc.ErrorAudit? || s.runs[i].pc.ErrorCommit? || Finished(s.runs[i].pc))
    ensures !Refused(s, i, o) && !Refuses(s, i, o)
    ensures Raised(s, i, o) <==> Raises(s, i, o)
    ensures Raises(s, i, o) ==> o.fault.Killed?
  {
  }

  /** Every statement, every fault: what is caught, what leaves `run`, and nothing else. */
  lemma FaultsAreClassified(s: State, i: nat, o: Oracle)
    requires i < |s.runs| && PcOk(s.runs[i])
    ensures Refused(s, i, o) <==> Refuses(s, i, o)
    ensures Raised(s, i, o) <==> Raises(s, i, o)
  {
    match s.runs[i].pc
    case Staging | StagingCommit | ReadBack => StagingClassified(s, i, o);
    case Resolving => ResolvingClassified(s, i, o);
    case Asserting => AssertingClassified(s, i, o);
    case PublishRead | PublishInsert | PublishAudit | PublishCommit => PublishClassified(s, i, o);
    case RouteQueue | RouteAudit | RouteCommit => RouteClassified(s, i, o);
    case _ => ErrorClassified(s, i, o);
  }

  /** A refusal records its kind and the clock reading `_errored` takes; afterwards neither changes. */
  lemma StepKeepsError(s: State, i: nat, o: Oracle)
    requires i < |s.runs| && PcOk(s.runs[i]) && StepOf(s, i, o).Next?
    ensures var r, q := s.runs[i], StepOf(s, i, o).run;
      && (q.pc.ErrorAudit? ==> q.error == KindAt(r.pc) && q.error.Some? && q.stamp == o.now)
      && (r.error.Some? ==> !q.pc.ErrorAudit? && q.error == r.error && q.stamp == r.stamp)
      && (r.error.None? && !q.pc.ErrorAudit? ==> q.error.None?)
  {
  }

  /** The commit at which an invocation stands, once it reaches the server, makes its own rows durable. */
  ghost predicate Durable(pc: Pc, o: Oracle) {
    Committing(pc) && (o.fault.NoFault? || o.ackLost)
  }

  /** The outcome of the commit at which an invocation stands. */
  function OutcomeAt(pc: Pc): Option<RunStatus> {
    match pc
    case PublishCommit => Some(Published)
    case RouteCommit => Some(RoutedToReview)
    case ErrorCommit => Some(RunStatus.Errored)
    case _ => None
  }

  /** What a statement of one invocation does to the tables: nothing, unless it is a commit that
      reaches the server, acknowledged or not. That of a staging write puts the submitted row into
      staging; that of an outcome appends its audit row and, of a publish or referral, its own row. */
  lemma TablesAfter(s: State, i: nat, o: Oracle)
    requires Inv(s) && i < |s.runs|
    ensures var r, t := s.runs[i], Apply(s, Step(i, o)); var c := if Durable(r.pc, o) then OutcomeAt(r.pc) else None;
      && t.staging == (if Durable(r.pc, o) && r.pc.StagingCommit?
                       then s.staging[r.spec.ref := StagedRow(i, r.spec.ref, r.spec.key, r.spec.uuid, r.spec.data)]
                       else s.staging)
      && t.published == (if c == Some(Published) then s.published + [PublishedRowOf(i, r)] else s.published)
      && t.queue == (if c == Some(RoutedToReview) then s.queue + [QueueRowOf(i, r)] else s.queue)
      && t.audit == (if c.Some? then s.audit + [AuditRowOf(i, r, c.value)] else s.audit)
  {
    FlushedRows(s, i);
    StepTables(s, i, o);
    CommitsIffDurable(s, i, o);
  }

  lemma CommitsIffDurable(s: State, i: nat, o: Oracle)
    requires i < |s.runs|
    ensures StepOf(s, i, o).Next? && StepOf(s, i, o).commits <==> Durable(s.runs[i].pc, o)
  {
  }

  // ---------------------------------------------------------------- over whole runs

  /** Event k is a statement of invocation i. */
  ghost predicate StatementAt(seed: seq<PublishedRow>, events: seq<Event>, i: nat, k: nat) {
    && k < |events| && events[k].Step? && events[k].i == i && i < |Exec(Init(seed), events[..k]).runs|
  }

  /** Event k is a statement of i that is refused with that kind at that clock reading. */
  ghost predicate FailsAt(seed: seq<PublishedRow>, events: seq<Event>, i: nat, k: nat, kind: ErrorKind, now: int) {
    && StatementAt(seed, events, i, k)
    && var s := Exec(Init(seed), events[..k]);
       Refuses(s, i, events[k].o) && KindAt(s.runs[i].pc) == Some(kind) && events[k].o.now == now
  }

  /** Event k is a statement of i whose exception leaves `run`. */
  ghost predicate RaisesAt(seed: seq<PublishedRow>, events: seq<Event>, i: nat, k: nat) {
    StatementAt(seed, events, i, k) && Raises(Exec(Init(seed), events[..k]), i, events[k].o)
  }

  /** Event k is where i evaluated its assertions and reached its gate, at that clock reading. */
  ghost predicate GateAt(seed: seq<PublishedRow>, events: seq<Event>, i: nat, k: nat, now: int) {
    && StatementAt(seed, events, i, k) && events[k].o.now == now
    && Exec(Init(seed), events[..k]).runs[i].pc.Asserting?
  }

  /** Event k launched i, with that request at that clock reading. */
  ghost predicate LaunchAt(seed: seq<PublishedRow>, events: seq<Event>, i: nat, k: nat, request: Request, now: int) {
    k < |events| && events[k] == Launch(request, now) && |Exec(Init(seed), events[..k]).runs| == i
  }

  ghost predicate Fails(seed: seq<PublishedRow>, events: seq<Event>, i: nat, kind: ErrorKind, now: int) {
    exists k :: FailsAt(seed, events, i, k, kind, now)
  }

  ghost predicate RaisesOnce(seed: seq<PublishedRow>, events: seq<Event>, i: nat) {
    exists k :: RaisesAt(seed, events, i, k)
  }

  ghost predicate Gate(seed: seq<PublishedRow>, events: seq<Event>, i: nat, now: int) {
    exists k :: GateAt(seed, events, i, k, now)
  }

  ghost predicate IsRequest(seed: seq<PublishedRow>, events: seq<Event>, i: nat, request: Request, now: int) {
    exists k :: LaunchAt(seed, events, i, k, request, now)
  }

  /** Events so far stay where they are. */
  lemma Earlier(seed: seq<PublishedRow>, events: seq<Event>, n: nat, k: nat)
    requires k < n <= |events|
    ensures events[..n][..k] == events[..k] && events[..n][k] == events[k]
  {
  }

  lemma FailsAfter(seed: seq<PublishedRow>, events: seq<Event>, i: nat, kind: ErrorKind, now: int)
    requires events != []
    ensures var n := |events| - 1;
      Fails(seed, events, i, kind, now) <==> Fails(seed, events[..n], i, kind, now) || FailsAt(seed, events, i, n, kind, now)
  {
    var n := |events| - 1;
    forall k | 0 <= k < n ensures FailsAt(seed, events, i, k, kind, now) <==> FailsAt(seed, events[..n], i, k, kind, now) {
      Earlier(seed, events, n, k);
    }
    if Fails(seed, events[..n], i, kind, now) {
      var k :| FailsAt(seed, events[..n], i, k, kind, now);
      assert FailsAt(seed, events, i, k, kind, now);
    }
  }

  lemma RaisesAfter(seed: seq<PublishedRow>, events: seq<Event>, i: nat)
    requires events != []
    ensures var n := |events| - 1;
      RaisesOnce(seed, events, i) <==> RaisesOnce(seed, events[..n], i) || RaisesAt(seed, events, i, n)
  {
    var n := |events| - 1;
    forall k | 0 <= k < n ensures RaisesAt(seed, events, i, k) <==> RaisesAt(seed, events[..n], i, k) {
      Earlier(seed, events, n, k);
    }
    if RaisesOnce(seed, events[..n], i) {
      var k :| RaisesAt(seed, events[..n], i, k);
      assert RaisesAt(seed, events, i, k);
    }
  }

  lemma GateAfter(seed: seq<PublishedRow>, events: seq<Event>, i: nat, now: int)
    requires events != []
    ensures var n := |events| - 1;
      Gate(seed, events[..n], i, now) || GateAt(seed, events, i, n, now) ==> Gate(seed, events, i, now)
  {
    var n := |events| - 1;
    if Gate(seed, events[..n], i, now) {
      var k :| GateAt(seed, events[..n], i, k, now);
      Earlier(seed, events, n, k);
      assert GateAt(seed, events, i, k, now);
    }
  }

  lemma RequestAfter(seed: seq<PublishedRow>, events: seq<Event>, i: nat, request: Request, now: int)
    requires events != [] && IsRequest(seed, events[..|events| - 1], i, request, now)
    ensures IsRequest(seed, events, i, request, now)
  {
    var n := |events| - 1;
    var k :| LaunchAt(seed, events[..n], i, k, request, now);
    Earlier(seed, events, n, k);
    assert LaunchAt(seed, events, i, k, request, now);
  }

  /** Before an invocation is launched it has no statements. */
  lemma NothingBefore(seed: seq<PublishedRow>, events: seq<Event>, i: nat)
    requires |Exec(Init(seed), events).runs| <= i
    ensures !RaisesOnce(seed, events, i)
    ensures forall kind, now :: !Fails(seed, events, i, kind, now)
  {
    forall k: nat | k < |events| ensures |Exec(Init(seed), events[..k]).runs| <= i {
      PrefixKept(seed, events, k);
    }
  }

  /** An event seen from one invocation: its own statement, or nothing. */
  lemma EventAt(seed: seq<PublishedRow>, events: seq<Event>, i: nat)
    requires events != [] && i < |Exec(Init(seed), events[..|events| - 1]).runs|
    ensures var n := |events| - 1; var s, t := Exec(Init(seed), events[..n]), Exec(Init(seed), events);
      && i < |t.runs|
      && (StatementAt(seed, events, i, n) <==> events[n].Step? && events[n].i == i)
      && (StatementAt(seed, events, i, n) ==>
            t.runs[i] == match StepOf(s, i, events[n].o) case Next(r, _) => r case Blocked => s.runs[i])
      && (!StatementAt(seed, events, i, n) ==> t.runs[i] == s.runs[i])
  {
  }

  lemma {:induction false} ErrorSoFar(seed: seq<PublishedRow>, events: seq<Event>, i: nat, kind: ErrorKind, now: int)
    requires ValidSeed(seed) && i < |Exec(Init(seed), events).runs|
    ensures var r := Exec(Init(seed), events).runs[i];
      Fails(seed, events, i, kind, now) <==> r.error == Some(kind) && r.stamp == now
  {
    if events != [] {
      var n := |events| - 1;
      var s, e := Exec(Init(seed), events[..n]), events[n];
      FailsAfter(seed, events, i, kind, now);
      if i >= |s.runs| {
        NothingBefore(seed, events[..n], i);
      } else {
        ErrorSoFar(seed, events[..n], i, kind, now);
        EventAt(seed, events, i);
        if StatementAt(seed, events, i, n) {
          ReachableInv(seed, events[..n]);
          assert RunOk(s, i) && PcOk(s.runs[i]);
          ErrorStep(s, i, e.o);
        }
      }
    }
  }

  /** What one statement does to the error, in terms of whether it is refused. */
  lemma ErrorStep(s: State, i: nat, o: Oracle)
    requires i < |s.runs| && PcOk(s.runs[i])
    ensures var r := s.runs[i];
      var q := match StepOf(s, i, o) case Next(x, _) => x case Blocked => r;
      && (Refuses(s, i, o) ==> r.error.None? && q.error == KindAt(r.pc) && q.error.Some? && q.stamp == o.now)
      && (!Refuses(s, i, o) ==> q.error == r.error && (r.error.Some? ==> q.stamp == r.stamp))
  {
    FaultsAreClassified(s, i, o);
    if StepOf(s, i, o).Next? {
      StepKeepsError(s, i, o);
    }
  }

  /** An invocation has an error exactly when one of its statements was refused: the error is of the
      kind of that statement, and its stamp is the clock reading taken then. */
  lemma ErrorIffRefused(seed: seq<PublishedRow>, events: seq<Event>, i: nat)
    requires ValidSeed(seed) && i < |Exec(Init(seed), events).runs|
    ensures var r := Exec(Init(seed), events).runs[i];
      forall kind, now :: Fails(seed, events, i, kind, now) <==> r.error == Some(kind) && r.stamp == now
  {
    var r := Exec(Init(seed), events).runs[i];
    forall kind, now ensures Fails(seed, events, i, kind, now) <==> r.error == Some(kind) && r.stamp == now {
      ErrorSoFar(seed, events, i, kind, now);
    }
  }

  /** `run` raises if and only if the request was rejected or one of its statements raised: on a
      snapshot that is no dict, on an assertion with an empty name that raises, on a database error
      in the publish or referral transaction, on any other exception up to there, or as the process
      died. */
  lemma {:induction false} RaisedIffStatementRaised(seed: seq<PublishedRow>, events: seq<Event>, i: nat)
    requires ValidSeed(seed) && i < |Exec(Init(seed), events).runs|
    ensures var r := Exec(Init(seed), events).runs[i];
      r.pc.Escaped? <==> Rejected(r.spec) || RaisesOnce(seed, events, i)
  {
    if events != [] {
      var n := |events| - 1;
      var s, e := Exec(Init(seed), events[..n]), events[n];
      RaisesAfter(seed, events, i);
      if i >= |s.runs| {
        NothingBefore(seed, events[..n], i);
      } else {
        RaisedIffStatementRaised(seed, events[..n], i);
        EventAt(seed, events, i);
        if StatementAt(seed, events, i, n) {
          ReachableInv(seed, events[..n]);
          assert RunOk(s, i) && PcOk(s.runs[i]);
          FaultsAreClassified(s, i, e.o);
          RaiseStep(s, i, e.o);
        }
      }
    }
  }

  lemma RaiseStep(s: State, i: nat, o: Oracle)
    requires i < |s.runs| && PcOk(s.runs[i])
    ensures var r := s.runs[i];
      var q := match StepOf(s, i, o) case Next(x, _) => x case Blocked => r;
      && q.spec == r.spec && (q.pc.Escaped? <==> r.pc.Escaped? || Raised(s, i, o))
  {
    if StepOf(s, i, o).Next? {
      StepKeepsSpec(s, i, o);
    }
  }

  /** A database error before the gate is always caught: it becomes the error of the invocation, of
      the kind of its statement, and `_errored` takes its clock reading. */
  lemma DatabaseErrorBeforeGateIsCaught(seed: seq<PublishedRow>, events: seq<Event>, i: nat, k: nat)
    requires ValidSeed(seed) && StatementAt(seed, events, i, k) && events[k].o.fault.DbError?
    requires var pc := Exec(Init(seed), events[..k]).runs[i].pc;
      pc.Staging? || pc.StagingCommit? || pc.ReadBack? || pc.Resolving?
    ensures i < |Exec(Init(seed), events).runs|
    ensures var r := Exec(Init(seed), events).runs[i];
      r.error == KindAt(Exec(Init(seed), events[..k]).runs[i].pc) && r.stamp == events[k].o.now
  {
    var s := Exec(Init(seed), events[..k]);
    PrefixKept(seed, events, k);
    var kind := KindAt(s.runs[i].pc).value;
    assert FailsAt(seed, events, i, k, kind, events[k].o.now);
    ErrorSoFar(seed, events, i, kind, events[k].o.now);
  }

  // ---------------------------------------------------------------- the gate and the launch

  lemma GateStep(s: State, i: nat, o: Oracle)
    requires i < |s.runs| && PcOk(s.runs[i])
    ensures var r := s.runs[i];
      var q := match StepOf(s, i, o) case Next(x, _) => x case Blocked => r;
      && (r.report.Some? && q.error.None? ==> q.stamp == r.stamp && q.report == r.report && r.error.None?)
      && (r.report.None? && q.report.Some? ==> r.pc.Asserting? && q.stamp == o.now)
  {
  }

  /** A report that led to no error was given at the gate, at the clock reading of the stamp. */
  lemma {:induction false} StampIsGateReading(seed: seq<PublishedRow>, events: seq<Event>, i: nat)
    requires ValidSeed(seed) && i < |Exec(Init(seed), events).runs|
    ensures var r := Exec(Init(seed), events).runs[i]; r.report.Some? && r.error.None? ==> Gate(seed, events, i, r.stamp)
  {
    if events != [] {
      var n := |events| - 1;
      var s, e := Exec(Init(seed), events[..n]), events[n];
      if i < |s.runs| {
        StampIsGateReading(seed, events[..n], i);
        EventAt(seed, events, i);
        GateAfter(seed, events, i, Exec(Init(seed), events).runs[i].stamp);
        if StatementAt(seed, events, i, n) {
          ReachableInv(seed, events[..n]);
          assert RunOk(s, i) && PcOk(s.runs[i]);
          GateStep(s, i, e.o);
        }
      }
    }
  }

  // ---------------------------------------------------------------- the reference

  /** `dict(payload)` gives the reference. */
  predicate IsDictOf(payload: Value, reference: Value) {
    if payload.Obj? then reference == payload else payload == Arr([]) && reference == Obj(map[])
  }

  /** Event k is where i took the reference: the answer of its external source, or the dict of the
      row that the view showed for its key at that moment. */
  ghost predicate ResolvedAt(seed: seq<PublishedRow>, events: seq<Event>, i: nat, k: nat, reference: Value) {
    && StatementAt(seed, events, i, k) && events[k].o.fault.NoFault?
    && var s := Exec(Init(seed), events[..k]);
       Answered(s, i, events[k].o, reference)
  }

  ghost predicate Answered(s: State, i: nat, o: Oracle, reference: Value) {
    && i < |s.runs| && s.runs[i].pc.Resolving?
    && match s.runs[i].spec.source
       case External => reference == o.external
       case Snapshot =>
         IsLatest(s.published, s.runs[i].spec.key, o.pick) && IsDictOf(s.published[o.pick].payload, reference)
  }

  ghost predicate ReferenceFrom(seed: seq<PublishedRow>, events: seq<Event>, i: nat, reference: Value) {
    exists k :: ResolvedAt(seed, events, i, k, reference)
  }

  lemma ReferenceStep(s: State, i: nat, o: Oracle)
    requires i < |s.runs|
    ensures var r := s.runs[i];
      var q := match StepOf(s, i, o) case Next(x, _) => x case Blocked => r;
      q.reference == r.reference
      || (q.reference.Some? && o.fault.NoFault? && Answered(s, i, o, q.reference.value))
  {
  }

  lemma ResolvedAfter(seed: seq<PublishedRow>, events: seq<Event>, i: nat, reference: Value)
    requires events != [] && ReferenceFrom(seed, events[..|events| - 1], i, reference)
    ensures ReferenceFrom(seed, events, i, reference)
  {
    var n := |events| - 1;
    var k :| ResolvedAt(seed, events[..n], i, k, reference);
    Earlier(seed, events, n, k);
    assert ResolvedAt(seed, events, i, k, reference);
  }

  /** What an invocation asserts against is what its source gave it, unchanged. */
  lemma {:induction false} ReferenceIsResolved(seed: seq<PublishedRow>, events: seq<Event>, i: nat)
    requires i < |Exec(Init(seed), events).runs|
    ensures var r := Exec(Init(seed), events).runs[i];
      r.reference.Some? ==> ReferenceFrom(seed, events, i, r.reference.value)
  {
    if events != [] {
      var n := |events| - 1;
      var s, e := Exec(Init(seed), events[..n]), events[n];
      var reference := Exec(Init(seed), events).runs[i].reference;
      if i < |s.runs| {
        ReferenceIsResolved(seed, events[..n], i);
        EventAt(seed, events, i);
        if reference.Some? {
          if s.runs[i].reference == reference {
            ResolvedAfter(seed, events, i, reference.value);
          } else {
            ReferenceStep(s, i, e.o);
            assert ResolvedAt(seed, events, i, n, reference.value);
          }
        }
      }
    }
  }

  /** Every invocation is one request, launched once: what it was asked, and when it started. */
  lemma {:induction false} EveryRunWasRequested(seed: seq<PublishedRow>, events: seq<Event>, i: nat)
      returns (request: Request, now: int)
    requires i < |Exec(Init(seed), events).runs|
    ensures IsRequest(seed, events, i, request, now)
    ensures var r := Exec(Init(seed), events).runs[i]; r.spec == SpecOf(request) && r.startedAt == now
  {
    var n := |events| - 1;
    var s := Exec(Init(seed), events[..n]);
    if i < |s.runs| {
      request, now := EveryRunWasRequested(seed, events[..n], i);
      RequestAfter(seed, events, i, request, now);
      ApplyKeepsSpecs(s, events[n]);
    } else {
      request, now := events[n].request, events[n].now;
      assert LaunchAt(seed, events, i, n, request, now);
    }
  }

  // ---------------------------------------------------------------- the rows in full

  /** Every audit row, field by field, in terms of the request of its run and of what happened to it:
      an ERRORED row carries the error of the refused statement and the clock reading taken then, and
      the report of the run, empty if there was none; the others carry the report and the clock
      reading of the gate. */
  lemma AuditRowsInFull(seed: seq<PublishedRow>, events: seq<Event>, a: AuditRow) returns (request: Request, now: int)
    requires ValidSeed(seed) && a in Exec(Init(seed), events).audit
    ensures var s := Exec(Init(seed), events);
      && a.writer < |s.runs| && IsRequest(seed, events, a.writer, request, now)
      && a.uuid == UuidOf(request.runId) && a.key == request.key && a.stagingRef == Print(request.key, request.runId)
      && a.startedAt == now && a.report.runId == request.runId
      && var r := s.runs[a.writer];
      match a.status
      case Published =>
        && a.publishedRef == Some(PrintPublished(request.key, request.runId)) && a.error == None
        && Some(a.report) == r.report && a.report.AllPassed() && Gate(seed, events, a.writer, a.completedAt)
      case RoutedToReview =>
        && a.publishedRef == None && a.error == None
        && Some(a.report) == r.report && !a.report.AllPassed() && Gate(seed, events, a.writer, a.completedAt)
      case Errored =>
        && a.publishedRef == None && a.error.Some?
        && Fails(seed, events, a.writer, a.error.value, a.completedAt)
        && (r.report.Some? ==> a.report == r.report.value) && (r.report.None? ==> a.report.results == [])
  {
    var s := Exec(Init(seed), events);
    AuditOrigin(seed, events, a);
    request, now := EveryRunWasRequested(seed, events, a.writer);
    ErrorIffRefused(seed, events, a.writer);
    StampIsGateReading(seed, events, a.writer);
    assert RunOk(s, a.writer) && PcOk(s.runs[a.writer]) && ReportOk(s.runs[a.writer]) && ErrorFits(s.runs[a.writer]);
  }

  lemma {:induction false} AuditByHas(rows: seq<AuditRow>, a: AuditRow)
    requires a in rows
    ensures a in AuditBy(rows, a.writer)
  {
    if a != rows[|rows| - 1] {
      assert rows == rows[..|rows| - 1] + [rows[|rows| - 1]];
      AuditByHas(rows[..|rows| - 1], a);
    }
  }

  /** An audit row is the one of the outcome its writer committed. */
  lemma AuditOrigin(seed: seq<PublishedRow>, events: seq<Event>, a: AuditRow)
    requires ValidSeed(seed) && a in Exec(Init(seed), events).audit
    ensures var s := Exec(Init(seed), events);
      && a.writer < |s.runs| && RunOk(s, a.writer) && Committed(s.runs[a.writer]) == Some(a.status)
      && Supports(s.runs[a.writer], a.status)
      && a == AuditRowOf(a.writer, s.runs[a.writer], a.status)
  {
    ReachableInv(seed, events);
    ReachableLedgers(seed, events);
    var s := Exec(Init(seed), events);
    AuditByHas(s.audit, a);
    assert if a.writer < |s.runs| then Ledger(s, |seed|, a.writer) else Unwritten(s, |seed|, a.writer);
    assert RunOk(s, a.writer);
  }

  /** Every published row since the seed, field by field: the names of its request, the payload of
      the row promoted, and the clock reading of the gate. */
  lemma PublishedRowsInFull(seed: seq<PublishedRow>, events: seq<Event>, p: PublishedRow) returns (request: Request, now: int)
    requires ValidSeed(seed) && |seed| <= |Exec(Init(seed), events).published|
    requires p in Added(Exec(Init(seed), events), |seed|)
    ensures var s := Exec(Init(seed), events);
      && p.writer < |s.runs| && IsRequest(seed, events, p.writer, request, now)
      && p.ref == PrintPublished(request.key, request.runId) && p.key == request.key && p.uuid == UuidOf(request.runId)
      && p.stagingRef == Print(request.key, request.runId)
      && s.runs[p.writer].promoted.Some? && p.payload == s.runs[p.writer].promoted.value.payload
      && Gate(seed, events, p.writer, p.publishedAt)
  {
    PublishedOrigin(seed, events, p);
    request, now := EveryRunWasRequested(seed, events, p.writer);
    StampIsGateReading(seed, events, p.writer);
    var r := Exec(Init(seed), events).runs[p.writer];
    assert PcOk(r) && ErrorFits(r);
  }

  /** Every queue row, field by field; its severity is by QueuedMeansFailure. */
  lemma QueueRowsInFull(seed: seq<PublishedRow>, events: seq<Event>, q: QueueRow) returns (request: Request, now: int)
    requires ValidSeed(seed) && q in Exec(Init(seed), events).queue
    ensures var s := Exec(Init(seed), events);
      && q.writer < |s.runs| && IsRequest(seed, events, q.writer, request, now)
      && q.uuid == UuidOf(request.runId) && q.key == request.key && q.stagingRef == Print(request.key, request.runId)
      && Some(q.report) == s.runs[q.writer].report && q.report.runId == request.runId
      && Gate(seed, events, q.writer, q.queuedAt)
  {
    QueuedOrigin(seed, events, q);
    request, now := EveryRunWasRequested(seed, events, q.writer);
    StampIsGateReading(seed, events, q.writer);
    var r := Exec(Init(seed), events).runs[q.writer];
    assert PcOk(r) && ErrorFits(r) && ReportOk(r);
  }

  // ---------------------------------------------------------------- what may be staged

  /** Every row of staging, field by field: the names and the data of its request, whose key is
      non-empty and free of separators and whose data is a dict or a list. */
  lemma StagedRowsInFull(seed: seq<PublishedRow>, events: seq<Event>, ref: string) returns (request: Request, now: int)
    requires ValidSeed(seed) && ref in Exec(Init(seed), events).staging
    ensures var s := Exec(Init(seed), events); var row := s.staging[ref];
      && row.writer < |s.runs| && IsRequest(seed, events, row.writer, request, now)
      && row == StagedRow(row.writer, Print(request.key, request.runId), request.key, UuidOf(request.runId), request.data)
      && row.ref == ref && request.key != "" && (forall c <- request.key :: c != '/' && c != '\\')
      && (request.data.Obj? || request.data.Arr?)
  {
    ReachableInv(seed, events);
    var s := Exec(Init(seed), events);
    var row := s.staging[ref];
    assert Authentic(s, ref, row) && RunOk(s, row.writer) && PcOk(s.runs[row.writer]);
    request, now := EveryRunWasRequested(seed, events, row.writer);
  }
}
