/** The promises that need a condition, and interleavings that break them without it. */
module Limits {
  import opened Wrappers
  import opened Json
  import opened Models
  import opened StagingRef
  import opened Protocol
  import opened Traces

  ghost predicate Reaches(s: State, t: State) {
    exists events :: Exec(s, events) == t
  }

  lemma ReachesOn(s: State, t: State, u: State)
    requires Reaches(s, t) && Reaches(t, u)
    ensures Reaches(s, u)
  {
    var a :| Exec(s, a) == t;
    var b :| Exec(t, b) == u;
    ExecConcat(s, a, b);
  }

  lemma ReachesBy(s: State, events: seq<Event>, t: State)
    requires Exec(s, events) == t
    ensures Reaches(s, t)
  {
  }

  lemma EventReaches(s: State, e: Event)
    ensures Reaches(s, Apply(s, e))
  {
    ExecAppend(s, [], e);
    ReachesBy(s, [] + [e], Apply(s, e));
  }

  lemma LeadsReaches(s: State, e: Event, t: State)
    requires Leads(s, e, t)
    ensures Reaches(s, t)
  {
    var n: nat :| Exec(s, Repeat(e, n)) == t;
  }

  /** A run id in the form that can be staged and read back, and a payload that can be staged. */
  predicate Usable(spec: Request) {
    && SpecOf(spec).Stageable() && ValidRunId(spec.runId) && RefRunId(spec.runId) && Castable(spec.runId)
    && spec.assertions != [] && spec.source.External?
  }

  /** The report an invocation gets on its own data. */
  predicate Gives(spec: Request, reference: Value, report: Report) {
    report.runId == spec.runId && RunAll(spec.assertions, spec.data, reference) == Some(report.results)
  }

  function Begun(s: State, spec: Request): State {
    s.(runs := s.runs + [Launched(spec, 0)])
  }

  lemma LaunchReaches(s: State, spec: Request)
    requires Usable(spec)
    ensures Reaches(s, Begun(s, spec))
    ensures Begun(s, spec).runs[|s.runs|] == Launched(spec, 0)
  {
    EventReaches(s, Launch(spec, 0));
  }

  predicate Idle(s: State) {
    forall i | 0 <= i < |s.runs| :: s.runs[i].txn == NO_TXN
  }

  function Emptied(s: State, ref: string): State {
    s.(staging := s.staging - {ref})
  }

  lemma DeleteReaches(s: State, ref: string)
    requires Idle(s)
    ensures Reaches(s, Emptied(s, ref))
  {
    EventReaches(s, Truncate(ref));
  }

  /** Launch an invocation into an idle system and take it to its gate. */
  lemma GateReaches(s: State, spec: Request, now: int, reference: Value, report: Report) returns (g: State)
    requires Idle(s) && Usable(spec) && Gives(spec, reference, report)
    requires !StagedTaken(s, StagedRowOf(|s.runs|, SpecOf(spec)))
    ensures Reaches(s, g)
    ensures Begun(s, spec).runs[|s.runs|] == Launched(spec, 0)
    ensures g == Gated(Begun(s, spec), |s.runs|, Calm(now, 0, reference), reference, report)
  {
    var b, i, o := Begun(s, spec), |s.runs|, Calm(now, 0, reference);
    LaunchReaches(s, spec);
    assert StagedTaken(b, StagedRowOf(i, SpecOf(spec))) == StagedTaken(s, StagedRowOf(i, SpecOf(spec)));
    assert forall j | 0 <= j < i :: b.runs[j] == s.runs[j];
    StagePhase(b, i, o, reference, report);
    g := Gated(b, i, o, reference, report);
    LeadsReaches(b, Step(i, o), g);
    ReachesOn(s, b, g);
  }

  /** Publish the invocation that waits at its gate. */
  lemma PublishReaches(s: State, i: nat, now: int) returns (t: State)
    requires Idle(s) && i < |s.runs| && s.runs[i].pc.PublishRead? && s.runs[i].spec.ref in s.staging
    requires !PublishedTaken(s, PublishedRowOf(i, s.runs[i]))
    ensures Reaches(s, t)
    ensures var q := Promoted(s, s.runs[i]);
      t == Moved(WithPublished(s, i, q), i, q.(pc := Returned(Published, true), txn := NO_TXN))
  {
    var o, q := Calm(now, 0, Null), Promoted(s, s.runs[i]);
    assert PublishedTaken(s, PublishedRowOf(i, q)) == PublishedTaken(s, PublishedRowOf(i, s.runs[i]));
    PublishPhase(s, i, o);
    t := Moved(WithPublished(s, i, q), i, q.(pc := Returned(Published, true), txn := NO_TXN));
    LeadsReaches(s, Step(i, o), t);
  }

  // ---------------------------------------------------------------- a run that raises

  /** The only invocation is the one asked for, and waits at the gate its report chose. */
  ghost predicate AtGateOf(g: State, request: Request, report: Report) {
    && |g.runs| == 1 && g.runs[0].spec == SpecOf(request) && g.runs[0].report == Some(report)
    && g.runs[0].pc == if report.AllPassed() then PublishRead else RouteQueue
  }

  /** The invocation is over, its row is in staging, and nothing at all is recorded of it. */
  ghost predicate EndedWithoutTrace(t: State, request: Request) {
    && |t.runs| == 1 && t.runs[0].spec == SpecOf(request) && t.runs[0].pc == Escaped(None)
    && SpecOf(request).ref in t.staging && t.audit == [] && t.published == [] && t.queue == []
  }

  /** A database error at the gate. */
  lemma GateErrorStep(g: State, o: Oracle, request: Request, report: Report)
    requires AtGateOf(g, request, report) && o.fault.DbError?
    requires g.runs[0].spec.ref in g.staging && g.audit == [] && g.published == [] && g.queue == []
    ensures EndedWithoutTrace(Apply(g, Step(0, o)), request)
  {
  }

  /** Not every end of a run has an audit row: the invocation can stand at its gate, whatever its
      report, and from there every database error of its next statement leaves `run` past
      `_errored`. */
  lemma DatabaseErrorLeavesNoAudit(request: Request, reference: Value, report: Report) returns (g: State)
    requires Usable(request) && Gives(request, reference, report)
    ensures Reaches(Init([]), g) && AtGateOf(g, request, report)
    ensures forall o: Oracle :: o.fault.DbError? ==> EndedWithoutTrace(Apply(g, Step(0, o)), request)
  {
    g := GateReaches(Init([]), request, 1, reference, report);
    forall o: Oracle | o.fault.DbError? ensures EndedWithoutTrace(Apply(g, Step(0, o)), request) {
      GateErrorStep(g, o, request, report);
    }
  }

  /** The invocation is about to commit the outcome its report chose. */
  ghost predicate AtCommitOf(s: State, request: Request, status: RunStatus) {
    && |s.runs| == 1 && s.runs[0].spec == SpecOf(request) && !status.Errored?
    && s.runs[0].pc == match status case Published => PublishCommit case _ => RouteCommit
  }

  /** The invocation raised, and yet exactly one audit row and one row of its outcome are there. */
  ghost predicate EndedWithTrace(t: State, request: Request, status: RunStatus) {
    && |t.runs| == 1 && t.runs[0].spec == SpecOf(request) && t.runs[0].pc == Escaped(Some(status))
    && |t.audit| == 1 && t.audit[0].status == status && t.audit[0].writer == 0
    && |t.published| == (if status.Published? then 1 else 0) && |t.queue| == (if status.Published? then 0 else 1)
  }

  /** The connection fails after the server has committed. */
  function Unacknowledged(o: Oracle): Oracle {
    o.(fault := DbError, ackLost := true)
  }

  lemma LostCommitStep(s: State, i: nat, o: Oracle, status: RunStatus)
    requires i < |s.runs| && s.runs[i].pc == match status case Published => PublishCommit case _ => RouteCommit
    requires !status.Errored?
    ensures var t, txn := Apply(s, Step(i, Unacknowledged(o))), s.runs[i].txn;
      && t.runs == s.runs[i := Escape(s.runs[i], Some(status))]
      && t.published == s.published + Opt(txn.published) && t.audit == s.audit + Opt(txn.audit)
      && t.queue == s.queue + Opt(txn.queued)
  {
  }

  lemma PublishLost(g: State, o: Oracle, request: Request) returns (s: State)
    requires |g.runs| == 1 && g.runs[0].pc.PublishRead? && g.runs[0].spec.ref in g.staging && o.fault.NoFault?
    requires g.published == [] && g.audit == [] && g.queue == [] && g.runs[0].txn == NO_TXN
    requires g.runs[0].spec == SpecOf(request)
    ensures Reaches(g, s) && AtCommitOf(s, request, Published)
    ensures forall p: Oracle :: EndedWithTrace(Apply(s, Step(0, Unacknowledged(p))), request, Published)
  {
    var q := Inserted(0, Promoted(g, g.runs[0]));
    var s1 := Moved(g, 0, q);
    PublishOpen(g, 0, o);
    LeadsReaches(g, Step(0, o), s1);
    PublishAuditStep(s1, 0, o);
    s := Apply(s1, Step(0, o));
    EventReaches(s1, Step(0, o));
    ReachesOn(g, s1, s);
    forall p: Oracle ensures EndedWithTrace(Apply(s, Step(0, Unacknowledged(p))), request, Published) {
      LostCommitStep(s, 0, p, Published);
    }
  }

  lemma RouteLost(g: State, o: Oracle, request: Request) returns (s: State)
    requires |g.runs| == 1 && g.runs[0].pc.RouteQueue? && o.fault.NoFault?
    requires g.published == [] && g.audit == [] && g.queue == [] && g.runs[0].txn == NO_TXN
    requires g.runs[0].spec == SpecOf(request)
    ensures Reaches(g, s) && AtCommitOf(s, request, RoutedToReview)
    ensures forall p: Oracle :: EndedWithTrace(Apply(s, Step(0, Unacknowledged(p))), request, RoutedToReview)
  {
    RouteQueueStep(g, 0, o);
    var s1 := Apply(g, Step(0, o));
    EventReaches(g, Step(0, o));
    RouteAuditStep(s1, 0, o);
    s := Apply(s1, Step(0, o));
    EventReaches(s1, Step(0, o));
    ReachesOn(g, s1, s);
    forall p: Oracle ensures EndedWithTrace(Apply(s, Step(0, Unacknowledged(p))), request, RoutedToReview) {
      LostCommitStep(s, 0, p, RoutedToReview);
    }
  }

  /** A run that raised can have its audit row: every usable request can stand at its last commit,
      and if that reaches the server while its acknowledgement is lost, `run` raises and the outcome
      and its one audit row are there. */
  lemma LostAcknowledgementLeavesAudit(request: Request, reference: Value, report: Report) returns (s: State)
    requires Usable(request) && Gives(request, reference, report)
    ensures var status := if report.AllPassed() then Published else RoutedToReview;
      && Reaches(Init([]), s) && AtCommitOf(s, request, status)
      && forall o: Oracle :: EndedWithTrace(Apply(s, Step(0, Unacknowledged(o))), request, status)
  {
    var g := GateReaches(Init([]), request, 1, reference, report);
    var o := Calm(2, 0, reference);
    if report.AllPassed() {
      s := PublishLost(g, o, request);
    } else {
      s := RouteLost(g, o, request);
    }
    ReachesOn(Init([]), g, s);
  }

  /** The invocation returned ERRORED, with its audit row or without. */
  ghost predicate Errored(t: State, spec: Spec, audited: bool) {
    && |t.runs| == 1 && t.runs[0].spec == spec && t.runs[0].pc == Returned(RunStatus.Errored, audited)
    && |t.audit| == (if audited then 1 else 0)
  }

  lemma RefusalStep(s: State, o: Oracle)
    requires |s.runs| == 1 && s.runs[0].pc.Staging? && o.fault.NoFault?
    requires !s.runs[0].spec.Stageable() || !s.runs[0].spec.castable
    ensures Apply(s, Step(0, o)) == Moved(s, 0, Fail(s.runs[0], WriteFailed, o.now))
  {
  }

  lemma ErrorAuditStep(s: State, o: Oracle)
    requires |s.runs| == 1 && s.runs[0].pc.ErrorAudit? && s.runs[0].spec.castable && o.fault.NoFault?
    ensures var r := s.runs[0]; var row := AuditRowOf(0, r, RunStatus.Errored);
      Apply(s, Step(0, o)) == Moved(s, 0, r.(pc := ErrorCommit, txn := NO_TXN.(audit := Some(row))))
  {
  }

  lemma FailedAuditStep(s: State, o: Oracle)
    requires |s.runs| == 1 && s.runs[0].pc.ErrorCommit? && s.runs[0].txn.audit.Some? && s.audit == [] && o.fault.DbError?
    ensures Errored(Apply(s, Step(0, o)), s.runs[0].spec, o.ackLost)
  {
  }

  /** A request whose payload is refused before any I/O can stand at the commit of its audit row. If
      that commit fails, whether the ERRORED result it returns has an audit row depends on the server
      alone. */
  lemma ErroredMayLackAudit(request: Request) returns (s: State)
    requires ValidRunId(request.runId) && Castable(request.runId) && request.assertions != []
    requires !(request.data.Obj? || request.data.Arr?)
    ensures Reaches(Init([]), s) && |s.runs| == 1 && s.runs[0].spec == SpecOf(request) && s.runs[0].pc.ErrorCommit?
    ensures forall o: Oracle :: o.fault.DbError? ==> Errored(Apply(s, Step(0, o)), SpecOf(request), o.ackLost)
  {
    var b := Begun(Init([]), request);
    EventReaches(Init([]), Launch(request, 0));
    s := RefusalReaches(b);
    ReachesOn(Init([]), b, s);
    forall o: Oracle | o.fault.DbError? ensures Errored(Apply(s, Step(0, o)), SpecOf(request), o.ackLost) {
      FailedAuditStep(s, o);
    }
  }

  lemma RefusalReaches(b: State) returns (s: State)
    requires |b.runs| == 1 && b.runs[0].pc.Staging? && !b.runs[0].spec.Stageable() && b.runs[0].spec.castable && b.audit == []
    ensures Reaches(b, s) && |s.runs| == 1 && s.runs[0].spec == b.runs[0].spec
    ensures s.runs[0].pc.ErrorCommit? && s.runs[0].txn.audit.Some? && s.audit == []
  {
    var o := Calm(1, 0, Null);
    RefusalStep(b, o);
    EventReaches(b, Step(0, o));
    var s1 := Moved(b, 0, Fail(b.runs[0], WriteFailed, o.now));
    ErrorAuditStep(s1, o);
    EventReaches(s1, Step(0, o));
    var row := AuditRowOf(0, s1.runs[0], RunStatus.Errored);
    s := Moved(s1, 0, s1.runs[0].(pc := ErrorCommit, txn := NO_TXN.(audit := Some(row))));
    ReachesOn(b, s1, s);
  }

  // ---------------------------------------------------------------- a run_id that is not cast

  ghost predicate NoFaultIn(events: seq<Event>) {
    forall e <- events :: e.Step? ==> e.o.fault.NoFault?
  }

  lemma UncastAuditStep(s: State, o: Oracle)
    requires |s.runs| == 1 && s.runs[0].pc.ErrorAudit? && !s.runs[0].spec.castable && o.fault.NoFault? && s.audit == []
    ensures Errored(Apply(s, Step(0, o)), s.runs[0].spec, false)
  {
  }

  /** Without any fault: a run_id that the writer factory accepts and Postgres does not cast ends
      ERRORED and leaves no audit row. Such run_ids exist (StagingRef.LeadingHyphenIsNotCast). */
  lemma UncastRunIdLeavesNoAudit(request: Request) returns (events: seq<Event>)
    requires ValidRunId(request.runId) && !Castable(request.runId) && request.assertions != []
    ensures NoFaultIn(events) && Errored(Exec(Init([]), events), SpecOf(request), false)
  {
    var o := Calm(1, 0, Null);
    var b := Begun(Init([]), request);
    var s1 := Moved(b, 0, Fail(b.runs[0], WriteFailed, o.now));
    RefusalStep(b, o);
    UncastAuditStep(s1, o);
    ExecThree(Init([]), Launch(request, 0), Step(0, o), Step(0, o), b, s1);
    events := [] + [Launch(request, 0)] + [Step(0, o)] + [Step(0, o)];
  }

  lemma ExecThree(s: State, e1: Event, e2: Event, e3: Event, s1: State, s2: State)
    requires Apply(s, e1) == s1 && Apply(s1, e2) == s2
    ensures Exec(s, [] + [e1] + [e2] + [e3]) == Apply(s2, e3)
  {
    ExecAppend(s, [], e1);
    ExecAppend(s, [] + [e1], e2);
    ExecAppend(s, [] + [e1] + [e2], e3);
  }

  // ---------------------------------------------------------------- reused run ids and deletions

  /** The invocation of `first` asserted its own payload and published that of `second`. */
  ghost predicate PublishedUnseen(t: State, first: Request, second: Request) {
    && |t.published| == 1 && |t.runs| == 2 && t.runs[0].spec == SpecOf(first) && t.runs[1].spec == SpecOf(second)
    && t.published[0].writer == 0 && t.published[0].payload == second.data
    && t.runs[0].staged.Some? && t.runs[0].staged.value.payload == first.data
  }

  /** The payload promoted need not be the payload asserted: for any two requests with one key, one
      run_id, different data, and a first report that passes, deleting the first row lets the second
      be staged and the first publish the second's data. */
  lemma ReuseCanPublishUnseenData(first: Request, second: Request, reference: Value, report: Report)
    requires Usable(first) && Usable(second) && Gives(first, reference, report) && report.AllPassed()
    requires first.key == second.key && first.runId == second.runId && first.data != second.data
    ensures exists t :: Reaches(Init([]), t) && PublishedUnseen(t, first, second)
  {
    var o := Calm(1, 0, reference);
    var g := GateReaches(Init([]), first, 1, reference, report);
    var d := Emptied(g, SpecOf(first).ref);
    DeleteReaches(g, SpecOf(first).ref);
    var b := Begun(d, second);
    LaunchReaches(d, second);
    assert b.runs[1] == Launched(second, 0) && b.runs[0] == g.runs[0];
    StageTwo(b, 1, o);
    var h := Moved(WithStaged(b, StagedRowOf(1, SpecOf(second))), 1, b.runs[1].(pc := ReadBack, landed := true));
    LeadsReaches(b, Step(1, o), h);
    var t := PublishReaches(h, 0, 1);
    ReachesOn(Init([]), g, d);
    ReachesOn(Init([]), d, b);
    ReachesOn(Init([]), b, h);
    ReachesOn(Init([]), h, t);
    assert PromotedPayload(Promoted(h, h.runs[0])) == second.data;
  }

  lemma QueueReaches(s: State, i: nat, now: int) returns (t: State)
    requires Idle(s) && i < |s.runs| && s.runs[i].pc.RouteQueue?
    requires !QueueTaken(s, QueueRowOf(i, s.runs[i]))
    ensures Reaches(s, t)
    ensures t == Moved(WithQueued(s, i, s.runs[i]), i, s.runs[i].(pc := Returned(RoutedToReview, true), txn := NO_TXN))
  {
    var o := Calm(now, 0, Null);
    RoutePhase(s, i, o);
    t := Moved(WithQueued(s, i, s.runs[i]), i, s.runs[i].(pc := Returned(RoutedToReview, true), txn := NO_TXN));
    LeadsReaches(s, Step(i, o), t);
  }

  /** The invocation of `first` published, that of `second` is queued, under one pair. */
  ghost predicate PublishedAndQueued(t: State, first: Request, second: Request) {
    && |t.runs| == 2 && t.runs[0].spec == SpecOf(first) && t.runs[1].spec == SpecOf(second)
    && |t.published| == 1 && |t.queue| == 1 && t.published[0].writer == 0 && t.queue[0].writer == 1
    && t.published[0].key == t.queue[0].key && t.published[0].uuid == t.queue[0].uuid
  }

  /** With a deletion in between, any passing and any failing request with one key and run_id can
      leave their pair both published and queued. */
  lemma ReuseCanPublishAndQueue(
      first: Request, second: Request, reference: Value, passing: Report, failing: Report)
    requires Usable(first) && Usable(second) && first.key == second.key && first.runId == second.runId
    requires Gives(first, reference, passing) && passing.AllPassed()
    requires Gives(second, reference, failing) && !failing.AllPassed()
    ensures exists t :: Reaches(Init([]), t) && PublishedAndQueued(t, first, second)
  {
    var g := GateReaches(Init([]), first, 1, reference, passing);
    var p := PublishReaches(g, 0, 1);
    var d := Emptied(p, SpecOf(first).ref);
    DeleteReaches(p, SpecOf(first).ref);
    var h := GateReaches(d, second, 2, reference, failing);
    var t := QueueReaches(h, 1, 2);
    ReachesOn(Init([]), g, p);
    ReachesOn(Init([]), p, d);
    ReachesOn(Init([]), d, h);
    ReachesOn(Init([]), h, t);
  }

  // ---------------------------------------------------------------- overlapping publishes

  /** Of the two records of the dataset, the view shows the one committed first. */
  ghost predicate LastIsHidden(t: State, d: string) {
    && |t.published| == 2 && t.published[0].key == t.published[1].key == d
    && IsLatest(t.published, d, 0) && !IsLatest(t.published, d, 1)
  }

  /** From empty tables through h, both requests are published and the view shows the record that
      was committed first. */
  ghost predicate EndsHidden(h: State, t: State, first: Request, second: Request) {
    && Reaches(Init([]), h) && Reaches(h, t)
    && RunsOf(t, SpecOf(first), SpecOf(second)) && LastIsHidden(t, first.key)
  }

  /** The two invocations are those of the two requests. */
  ghost predicate RunsOf(t: State, first: Spec, second: Spec) {
    |t.runs| == 2 && t.runs[0].spec == first && t.runs[1].spec == second
  }

  /** An invocation at its publish gate, stamped, with its row in staging. */
  ghost predicate Poised(s: State, i: nat, spec: Spec, stamp: int) {
    && i < |s.runs| && s.runs[i].pc.PublishRead? && s.runs[i].spec == spec && s.runs[i].stamp == stamp
    && s.runs[i].txn == NO_TXN && spec.ref in s.staging
  }

  lemma BothPoised(first: Request, second: Request, reference: Value, r1: Report, r2: Report) returns (h: State)
    requires Usable(first) && Usable(second) && first.key == second.key && SpecOf(first).uuid != SpecOf(second).uuid
    requires Gives(first, reference, r1) && r1.AllPassed() && Gives(second, reference, r2) && r2.AllPassed()
    ensures Reaches(Init([]), h) && |h.runs| == 2 && h.published == []
    ensures Poised(h, 0, SpecOf(first), 1) && Poised(h, 1, SpecOf(second), 2)
  {
    if SpecOf(first).ref == SpecOf(second).ref {
      PrintIsInjective(first.key, first.runId, second.key, second.runId);
    }
    var g := GateReaches(Init([]), first, 1, reference, r1);
    h := GateReaches(g, second, 2, reference, r2);
    ReachesOn(Init([]), g, h);
  }

  /** The stamp is taken before the transaction, so overlapping publishes can commit out of order:
      any two passing invocations of one dataset can both stand at their publish gates, the second
      stamped later, and from there the view can end up on the record that committed first. */
  lemma OverlapCanHideLastCommitted(first: Request, second: Request, reference: Value, r1: Report, r2: Report)
    requires Usable(first) && Usable(second) && first.key == second.key && SpecOf(first).uuid != SpecOf(second).uuid
    requires Gives(first, reference, r1) && r1.AllPassed() && Gives(second, reference, r2) && r2.AllPassed()
    ensures exists h, t :: BothAtGate(h, first, second) && EndsHidden(h, t, first, second)
  {
    var h := BothPoised(first, second, reference, r1, r2);
    if SpecOf(first).publishedRef == SpecOf(second).publishedRef {
      PrintPublishedIsInjective(first.key, first.runId, second.key, second.runId);
    }
    var t := BothPublish(h, SpecOf(first), SpecOf(second), 1, 2);
    assert BothAtGate(h, first, second) && EndsHidden(h, t, first, second);
  }

  /** Both publishes have begun and neither is over; the clock readings increase. */
  ghost predicate BothAtGate(h: State, first: Request, second: Request) {
    Poised(h, 0, SpecOf(first), 1) && Poised(h, 1, SpecOf(second), 2)
  }

  /** Two invocations at their gates publish in the opposite order of their stamps. */
  lemma BothPublish(h: State, a: Spec, b: Spec, early: int, late: int) returns (t: State)
    requires |h.runs| == 2 && h.published == [] && Poised(h, 0, a, early) && Poised(h, 1, b, late)
    requires a.key == b.key && a.uuid != b.uuid && a.publishedRef != b.publishedRef && early < late
    ensures Reaches(h, t) && RunsOf(t, a, b) && LastIsHidden(t, a.key)
  {
    var p := PublishReaches(h, 1, 2);
    t := PublishReaches(p, 0, 3);
    ReachesOn(h, p, t);
    assert t.published[0] in t.published && t.published[0].publishedAt == late && t.published[1].publishedAt == early;
  }

  /** The only invocation so far is over, and the only record published is stamped `at`. */
  ghost predicate Settled(m: State, spec: Spec, at: int) {
    && |m.runs| == 1 && m.runs[0].spec == spec && Finished(m.runs[0].pc) && |m.published| == 1 && m.published[0].publishedAt == at
  }

  /** Without overlap a clock reading that does not increase is enough: for any two passing
      invocations of one dataset, the first can be over and committed before the second is launched,
      and the view can still keep showing the first. */
  lemma ClockCanHideLastCommitted(first: Request, second: Request, reference: Value, r1: Report, r2: Report)
    requires Usable(first) && Usable(second) && first.key == second.key && SpecOf(first).uuid != SpecOf(second).uuid
    requires Gives(first, reference, r1) && r1.AllPassed() && Gives(second, reference, r2) && r2.AllPassed()
    ensures exists m, t :: Settled(m, SpecOf(first), 2) && EndsHidden(m, t, first, second)
  {
    var m := FirstPublishes(first, reference, r1);
    var t := SecondPublishes(m, first, second, reference, r2);
    assert Settled(m, SpecOf(first), 2) && EndsHidden(m, t, first, second);
  }

  /** The one record of the first invocation is there, and its row in staging. */
  ghost predicate FirstIsIn(m: State, first: Spec) {
    && Settled(m, first, 2) && Idle(m) && m.published[0].key == first.key && m.published[0].uuid == first.uuid
    && m.published[0].ref == first.publishedRef
    && forall ref <- m.staging :: m.staging[ref].ref == first.ref && m.staging[ref].uuid == first.uuid
  }

  lemma FirstPublishes(first: Request, reference: Value, r1: Report) returns (m: State)
    requires Usable(first) && Gives(first, reference, r1) && r1.AllPassed()
    ensures Reaches(Init([]), m) && FirstIsIn(m, SpecOf(first))
  {
    var g := GateReaches(Init([]), first, 2, reference, r1);
    m := PublishReaches(g, 0, 3);
    ReachesOn(Init([]), g, m);
  }

  lemma SecondPublishes(m: State, first: Request, second: Request, reference: Value, r2: Report) returns (t: State)
    requires FirstIsIn(m, SpecOf(first)) && Usable(first) && Usable(second)
    requires first.key == second.key && SpecOf(first).uuid != SpecOf(second).uuid
    requires Gives(second, reference, r2) && r2.AllPassed()
    ensures Reaches(m, t) && RunsOf(t, SpecOf(first), SpecOf(second)) && LastIsHidden(t, first.key)
  {
    if SpecOf(first).ref == SpecOf(second).ref {
      PrintIsInjective(first.key, first.runId, second.key, second.runId);
    }
    if SpecOf(first).publishedRef == SpecOf(second).publishedRef {
      PrintPublishedIsInjective(first.key, first.runId, second.key, second.runId);
    }
    var h := GateReaches(m, second, 1, reference, r2);
    t := PublishBehind(h, SpecOf(second));
    ReachesOn(m, h, t);
  }

  lemma PublishBehind(h: State, b: Spec) returns (t: State)
    requires |h.runs| == 2 && |h.published| == 1 && Idle(h) && Poised(h, 1, b, 1)
    requires h.published[0].key == b.key && h.published[0].uuid != b.uuid && h.published[0].ref != b.publishedRef
    requires h.published[0].publishedAt == 2
    ensures Reaches(h, t) && RunsOf(t, h.runs[0].spec, b) && LastIsHidden(t, b.key)
  {
    t := PublishReaches(h, 1, 3);
    assert t.published[0] in t.published && t.published[0].publishedAt == 2 && t.published[1].publishedAt == 1;
  }
}
