/** Chains of events, and what an undisturbed invocation does from staging to its outcome. */
module Traces {
  import opened Wrappers
  import opened Json
  import opened Models
  import opened StagingRef
  import opened Protocol
  import opened Invariants

  function Repeat(e: Event, n: nat): seq<Event> {
    if n == 0 then [] else Repeat(e, n - 1) + [e]
  }

  lemma ExecAppend(s: State, events: seq<Event>, e: Event)
    ensures Exec(s, events + [e]) == Apply(Exec(s, events), e)
  {
    assert (events + [e])[..|events|] == events;
  }

  lemma {:induction false} ExecConcat(s: State, a: seq<Event>, b: seq<Event>)
    ensures Exec(s, a + b) == Exec(Exec(s, a), b)
  {
    if b == [] {
      assert a + b == a;
    } else {
      var n := |b| - 1;
      assert a + b == (a + b[..n]) + [b[n]];
      ExecConcat(s, a, b[..n]);
      ExecAppend(s, a + b[..n], b[n]);
    }
  }

  lemma {:induction false} ExecKeepsSpecs(s: State, events: seq<Event>)
    ensures SpecsKept(s, Exec(s, events))
  {
    if events != [] {
      ExecKeepsSpecs(s, events[..|events| - 1]);
      ApplyKeepsSpecs(Exec(s, events[..|events| - 1]), events[|events| - 1]);
    }
  }

  lemma PrefixKept(seed: seq<PublishedRow>, events: seq<Event>, k: nat)
    requires k <= |events|
    ensures SpecsKept(Exec(Init(seed), events[..k]), Exec(Init(seed), events))
  {
    assert events == events[..k] + events[k..];
    ExecConcat(Init(seed), events[..k], events[k..]);
    ExecKeepsSpecs(Exec(Init(seed), events[..k]), events[k..]);
  }

  // ---------------------------------------------------------------- undisturbed invocations

  /** No fault, the given clock reading and view row. */
  function Calm(now: int, pick: nat, external: Value): Oracle {
    Oracle(NoFault, false, now, pick, external)
  }

  /** The reference the oracle supplies is available to the invocation. */
  predicate ReferenceReady(s: State, spec: Spec, o: Oracle, reference: Value) {
    match spec.source
    case External => o.external == reference
    case Snapshot =>
      && HasRows(s.published, spec.key) && IsLatest(s.published, spec.key, o.pick)
      && AsDict(s.published[o.pick].payload) == Some(reference)
  }

  predicate ReadyToStage(s: State, i: nat) {
    && i < |s.runs| && s.runs[i].pc.Staging? && s.runs[i].spec.Stageable() && s.runs[i].txn == NO_TXN
    && RefRunId(s.runs[i].spec.runId) && s.runs[i].spec.castable
    && !StagedTaken(s, StagedRowOf(i, s.runs[i].spec)) && !StagedHeld(s, i, StagedRowOf(i, s.runs[i].spec))
  }

  /** The state with invocation i moved on to r. */
  function Moved(s: State, i: nat, r: Run): State
    requires i < |s.runs|
  {
    s.(runs := s.runs[i := r])
  }

  function WithStaged(s: State, row: StagedRow): State {
    s.(staging := s.staging[row.ref := row])
  }

  function Resolved(r: Run, i: nat, o: Oracle, reference: Value): Run {
    r.(pc := Asserting, landed := true, staged := Some(StagedRowOf(i, r.spec)), reference := Some(reference),
       snapshot := if r.spec.source.Snapshot? then Some(o.pick) else r.snapshot)
  }

  /** The invocation once it has staged, read back, resolved and asserted. */
  function AtGate(r: Run, i: nat, o: Oracle, reference: Value, report: Report): Run {
    Resolved(r, i, o, reference).(
      pc := if report.AllPassed() then PublishRead else RouteQueue, report := Some(report), stamp := o.now)
  }

  lemma InsertStep(s: State, i: nat, o: Oracle)
    requires ReadyToStage(s, i) && o.fault.NoFault?
    ensures var r := s.runs[i];
      Apply(s, Step(i, o)) == Moved(s, i, r.(pc := StagingCommit, txn := NO_TXN.(staged := Some(StagedRowOf(i, r.spec)))))
  {
  }

  lemma LandStep(s: State, i: nat, o: Oracle, row: StagedRow)
    requires i < |s.runs| && s.runs[i].pc.StagingCommit? && s.runs[i].txn == NO_TXN.(staged := Some(row)) && o.fault.NoFault?
    ensures Apply(s, Step(i, o)) == Moved(WithStaged(s, row), i, s.runs[i].(pc := ReadBack, landed := true, txn := NO_TXN))
  {
    var t := Apply(s, Step(i, o));
    assert t.published == s.published && t.audit == s.audit && t.queue == s.queue;
  }

  lemma ReadStep(s: State, i: nat, o: Oracle)
    requires i < |s.runs| && s.runs[i].pc.ReadBack? && o.fault.NoFault?
    requires RefRunId(s.runs[i].spec.runId) && s.runs[i].spec.ref in s.staging
    ensures var r := s.runs[i];
      Apply(s, Step(i, o)) == Moved(s, i, r.(pc := Resolving, staged := Some(s.staging[r.spec.ref])))
  {
  }

  lemma ResolveStep(s: State, i: nat, o: Oracle, reference: Value)
    requires i < |s.runs| && s.runs[i].pc.Resolving? && o.fault.NoFault?
    requires ReferenceReady(s, s.runs[i].spec, o, reference)
    ensures var r := s.runs[i];
      Apply(s, Step(i, o)) == Moved(s, i, r.(pc := Asserting, reference := Some(reference),
        snapshot := if r.spec.source.Snapshot? then Some(o.pick) else r.snapshot))
  {
  }

  lemma AssertStep(s: State, i: nat, o: Oracle, report: Report)
    requires i < |s.runs| && s.runs[i].pc.Asserting? && o.fault.NoFault?
    requires s.runs[i].staged.Some? && s.runs[i].reference.Some? && report.runId == s.runs[i].spec.runId
    requires RunAll(s.runs[i].spec.assertions, s.runs[i].staged.value.payload, s.runs[i].reference.value) == Some(report.results)
    ensures Apply(s, Step(i, o)) == Moved(s, i, s.runs[i].(
      pc := if report.AllPassed() then PublishRead else RouteQueue, report := Some(report), stamp := o.now))
  {
  }

  /** The state in which invocation i has passed its assertions and chosen its gate. */
  function Gated(s: State, i: nat, o: Oracle, reference: Value, report: Report): State
    requires i < |s.runs|
  {
    Moved(WithStaged(s, StagedRowOf(i, s.runs[i].spec)), i, AtGate(s.runs[i], i, o, reference, report))
  }

  /** From the start of staging to the gate. */
  lemma StagePhase(s: State, i: nat, o: Oracle, reference: Value, report: Report)
    requires ReadyToStage(s, i) && o.fault.NoFault? && ReferenceReady(s, s.runs[i].spec, o, reference)
    requires RunAll(s.runs[i].spec.assertions, s.runs[i].spec.data, reference) == Some(report.results)
    requires report.runId == s.runs[i].spec.runId
    ensures Leads(s, Step(i, o), Gated(s, i, o, reference, report))
  {
    var r := s.runs[i];
    var s2 := Moved(WithStaged(s, StagedRowOf(i, r.spec)), i, r.(pc := ReadBack, landed := true));
    StageTwo(s, i, o);
    assert ReferenceReady(s2, r.spec, o, reference);
    ReachGate(s2, i, o, reference, report);
    SameGate(s, i, o, reference, report, s2);
    LeadsOn(s, Step(i, o), s2, Gated(s, i, o, reference, report));
  }

  lemma SameGate(s: State, i: nat, o: Oracle, reference: Value, report: Report, s2: State)
    requires i < |s.runs|
    requires s2 == Moved(WithStaged(s, StagedRowOf(i, s.runs[i].spec)), i, s.runs[i].(pc := ReadBack, landed := true))
    ensures Moved(s2, i, AtGate(s2.runs[i], i, o, reference, report)) ==
      Moved(WithStaged(s, StagedRowOf(i, s.runs[i].spec)), i, AtGate(s.runs[i], i, o, reference, report))
  {
  }

  /** Some number of repetitions of the event lead from one state to the other. */
  ghost predicate Leads(s: State, e: Event, t: State) {
    exists n: nat :: Exec(s, Repeat(e, n)) == t
  }

  lemma LeadsOn(s: State, e: Event, t: State, u: State)
    requires Leads(s, e, t) && Leads(t, e, u)
    ensures Leads(s, e, u)
  {
    var m: nat :| Exec(s, Repeat(e, m)) == t;
    var n: nat :| Exec(t, Repeat(e, n)) == u;
    RepeatConcat(e, m, n);
    ExecConcat(s, Repeat(e, m), Repeat(e, n));
  }

  lemma MovedTwice(s: State, i: nat, r: Run, q: Run)
    requires i < |s.runs|
    ensures Moved(Moved(s, i, r), i, q) == Moved(s, i, q)
  {
  }

  lemma {:induction false} RepeatConcat(e: Event, m: nat, n: nat)
    ensures Repeat(e, m) + Repeat(e, n) == Repeat(e, m + n)
  {
    if n > 0 {
      RepeatConcat(e, m, n - 1);
      assert Repeat(e, m) + Repeat(e, n) == (Repeat(e, m) + Repeat(e, n - 1)) + [e];
    }
  }

  lemma StageTwo(s: State, i: nat, o: Oracle)
    requires ReadyToStage(s, i) && o.fault.NoFault?
    ensures Leads(s, Step(i, o), Moved(WithStaged(s, StagedRowOf(i, s.runs[i].spec)), i, s.runs[i].(pc := ReadBack, landed := true)))
  {
    var r, row, e := s.runs[i], StagedRowOf(i, s.runs[i].spec), Step(i, o);
    var r1 := r.(pc := StagingCommit, txn := NO_TXN.(staged := Some(row)));
    InsertStep(s, i, o);
    LandStep(Moved(s, i, r1), i, o, row);
    MovedTwice(WithStaged(s, row), i, r1, r.(pc := ReadBack, landed := true));
    ExecRepeat(s, e, 0); ExecRepeat(s, e, 1);
    assert Exec(s, Repeat(e, 2)) == Apply(Apply(s, e), e);
  }

  lemma ReachGate(s: State, i: nat, o: Oracle, reference: Value, report: Report)
    requires i < |s.runs| && s.runs[i].pc.ReadBack? && s.runs[i].landed && o.fault.NoFault?
    requires RefRunId(s.runs[i].spec.runId) && ReferenceReady(s, s.runs[i].spec, o, reference)
    requires s.runs[i].spec.ref in s.staging && s.staging[s.runs[i].spec.ref] == StagedRowOf(i, s.runs[i].spec)
    requires RunAll(s.runs[i].spec.assertions, s.runs[i].spec.data, reference) == Some(report.results)
    requires report.runId == s.runs[i].spec.runId
    ensures Leads(s, Step(i, o), Moved(s, i, AtGate(s.runs[i], i, o, reference, report)))
  {
    var r, e := s.runs[i], Step(i, o);
    var r3 := r.(pc := Resolving, staged := Some(s.staging[r.spec.ref]));
    var r4 := Resolved(r, i, o, reference);
    ReadStep(s, i, o);
    ResolveStep(Moved(s, i, r3), i, o, reference);
    MovedTwice(s, i, r3, r4);
    AssertStep(Moved(s, i, r4), i, o, report);
    MovedTwice(s, i, r4, AtGate(r, i, o, reference, report));
    ExecRepeat(s, e, 0); ExecRepeat(s, e, 1); ExecRepeat(s, e, 2);
    assert Exec(s, Repeat(e, 3)) == Apply(Apply(Apply(s, e), e), e);
  }

  lemma ExecRepeat(s: State, e: Event, n: nat)
    ensures Exec(s, Repeat(e, n + 1)) == Apply(Exec(s, Repeat(e, n)), e)
  {
    ExecAppend(s, Repeat(e, n), e);
  }

  // ---------------------------------------------------------------- the two transactions

  function Promoted(s: State, r: Run): Run
    requires r.spec.ref in s.staging
  {
    r.(promoted := Some(s.staging[r.spec.ref]), txn := NO_TXN.(lock := Some(r.spec.ref)))
  }

  function WithPublished(s: State, i: nat, r: Run): State {
    s.(published := s.published + [PublishedRowOf(i, r)], audit := s.audit + [AuditRowOf(i, r, Published)])
  }

  function WithQueued(s: State, i: nat, r: Run): State {
    s.(queue := s.queue + [QueueRowOf(i, r)], audit := s.audit + [AuditRowOf(i, r, RoutedToReview)])
  }

  lemma PublishReadStep(s: State, i: nat, o: Oracle)
    requires i < |s.runs| && s.runs[i].pc.PublishRead? && o.fault.NoFault? && s.runs[i].spec.ref in s.staging
    ensures Apply(s, Step(i, o)) == Moved(s, i, Promoted(s, s.runs[i]).(pc := PublishInsert))
  {
  }

  lemma PublishInsertStep(s: State, i: nat, o: Oracle)
    requires i < |s.runs| && s.runs[i].pc.PublishInsert? && o.fault.NoFault?
    requires !PublishedTaken(s, PublishedRowOf(i, s.runs[i])) && !PublishedHeld(s, i, PublishedRowOf(i, s.runs[i]))
    ensures var r := s.runs[i];
      Apply(s, Step(i, o)) == Moved(s, i, r.(pc := PublishAudit, txn := r.txn.(published := Some(PublishedRowOf(i, r)))))
  {
  }

  lemma PublishAuditStep(s: State, i: nat, o: Oracle)
    requires i < |s.runs| && s.runs[i].pc.PublishAudit? && o.fault.NoFault?
    ensures var r := s.runs[i];
      Apply(s, Step(i, o)) == Moved(s, i, r.(pc := PublishCommit, txn := r.txn.(audit := Some(AuditRowOf(i, r, Published)))))
  {
  }

  lemma PublishCommitStep(s: State, i: nat, o: Oracle, q: Run)
    requires i < |s.runs| && s.runs[i].pc.PublishCommit? && o.fault.NoFault?
    requires s.runs[i].txn == Txn(None, Some(PublishedRowOf(i, q)), Some(AuditRowOf(i, q, Published)), None, s.runs[i].txn.lock)
    ensures Apply(s, Step(i, o)) == Moved(WithPublished(s, i, q), i, s.runs[i].(pc := Returned(Published, true), txn := NO_TXN))
  {
    assert Apply(s, Step(i, o)).queue == s.queue;
  }

  /** The transaction with both inserts to come. */
  function Inserted(i: nat, q: Run): Run {
    q.(pc := PublishAudit, txn := q.txn.(published := Some(PublishedRowOf(i, q))))
  }

  lemma PublishOpen(s: State, i: nat, o: Oracle)
    requires i < |s.runs| && s.runs[i].pc.PublishRead? && o.fault.NoFault? && s.runs[i].spec.ref in s.staging
    requires var row := PublishedRowOf(i, Promoted(s, s.runs[i])); !PublishedTaken(s, row) && !PublishedHeld(s, i, row)
    ensures Leads(s, Step(i, o), Moved(s, i, Inserted(i, Promoted(s, s.runs[i]))))
  {
    var e, q := Step(i, o), Promoted(s, s.runs[i]);
    var r1 := q.(pc := PublishInsert);
    PublishReadStep(s, i, o);
    assert PublishedRowOf(i, r1) == PublishedRowOf(i, q);
    PublishInsertStep(Moved(s, i, r1), i, o);
    MovedTwice(s, i, r1, Inserted(i, q));
    ExecRepeat(s, e, 0); ExecRepeat(s, e, 1);
    assert Exec(s, Repeat(e, 2)) == Apply(Apply(s, e), e);
  }

  lemma PublishClose(s: State, i: nat, o: Oracle, q: Run)
    requires i < |s.runs| && s.runs[i] == Inserted(i, q) && o.fault.NoFault?
    requires q.txn == NO_TXN.(lock := q.txn.lock)
    ensures Leads(s, Step(i, o), Moved(WithPublished(s, i, q), i, q.(pc := Returned(Published, true), txn := NO_TXN)))
  {
    var e, r2 := Step(i, o), Inserted(i, q);
    var r3 := r2.(pc := PublishCommit, txn := r2.txn.(audit := Some(AuditRowOf(i, r2, Published))));
    assert AuditRowOf(i, r2, Published) == AuditRowOf(i, q, Published);
    PublishAuditStep(s, i, o);
    PublishCommitStep(Moved(s, i, r3), i, o, q);
    MovedTwice(WithPublished(s, i, q), i, r3, q.(pc := Returned(Published, true), txn := NO_TXN));
    ExecRepeat(s, e, 0); ExecRepeat(s, e, 1);
    assert Exec(s, Repeat(e, 2)) == Apply(Apply(s, e), e);
  }

  /** From the gate to a committed publish. */
  lemma PublishPhase(s: State, i: nat, o: Oracle)
    requires i < |s.runs| && s.runs[i].pc.PublishRead? && o.fault.NoFault? && s.runs[i].spec.ref in s.staging
    requires var row := PublishedRowOf(i, Promoted(s, s.runs[i])); !PublishedTaken(s, row) && !PublishedHeld(s, i, row)
    ensures var q := Promoted(s, s.runs[i]);
      Leads(s, Step(i, o), Moved(WithPublished(s, i, q), i, q.(pc := Returned(Published, true), txn := NO_TXN)))
  {
    var q := Promoted(s, s.runs[i]);
    var t := Moved(s, i, Inserted(i, q));
    PublishOpen(s, i, o);
    PublishClose(t, i, o, q);
    MovedTwice(WithPublished(s, i, q), i, Inserted(i, q), q.(pc := Returned(Published, true), txn := NO_TXN));
    LeadsOn(s, Step(i, o), t, Moved(WithPublished(s, i, q), i, q.(pc := Returned(Published, true), txn := NO_TXN)));
  }

  lemma RouteQueueStep(s: State, i: nat, o: Oracle)
    requires i < |s.runs| && s.runs[i].pc.RouteQueue? && o.fault.NoFault?
    requires !QueueTaken(s, QueueRowOf(i, s.runs[i])) && !QueueHeld(s, i, QueueRowOf(i, s.runs[i]))
    ensures var r := s.runs[i];
      Apply(s, Step(i, o)) == Moved(s, i, r.(pc := RouteAudit, txn := NO_TXN.(queued := Some(QueueRowOf(i, r)))))
  {
  }

  lemma RouteAuditStep(s: State, i: nat, o: Oracle)
    requires i < |s.runs| && s.runs[i].pc.RouteAudit? && o.fault.NoFault?
    ensures var r := s.runs[i];
      Apply(s, Step(i, o)) == Moved(s, i, r.(pc := RouteCommit, txn := r.txn.(audit := Some(AuditRowOf(i, r, RoutedToReview)))))
  {
  }

  lemma RouteCommitStep(s: State, i: nat, o: Oracle, q: Run)
    requires i < |s.runs| && s.runs[i].pc.RouteCommit? && o.fault.NoFault?
    requires s.runs[i].txn == Txn(None, None, Some(AuditRowOf(i, q, RoutedToReview)), Some(QueueRowOf(i, q)), None)
    ensures Apply(s, Step(i, o)) == Moved(WithQueued(s, i, q), i, s.runs[i].(pc := Returned(RoutedToReview, true), txn := NO_TXN))
  {
    assert Apply(s, Step(i, o)).published == s.published;
  }

  /** From the gate to a committed referral. */
  lemma RoutePhase(s: State, i: nat, o: Oracle)
    requires i < |s.runs| && s.runs[i].pc.RouteQueue? && o.fault.NoFault?
    requires !QueueTaken(s, QueueRowOf(i, s.runs[i])) && !QueueHeld(s, i, QueueRowOf(i, s.runs[i]))
    ensures var q := s.runs[i];
      Leads(s, Step(i, o), Moved(WithQueued(s, i, q), i, q.(pc := Returned(RoutedToReview, true), txn := NO_TXN)))
  {
    var e, q := Step(i, o), s.runs[i];
    var r1 := q.(pc := RouteAudit, txn := NO_TXN.(queued := Some(QueueRowOf(i, q))));
    var r2 := r1.(pc := RouteCommit, txn := r1.txn.(audit := Some(AuditRowOf(i, r1, RoutedToReview))));
    RouteQueueStep(s, i, o);
    assert AuditRowOf(i, r1, RoutedToReview) == AuditRowOf(i, q, RoutedToReview);
    RouteAuditStep(Moved(s, i, r1), i, o);
    MovedTwice(s, i, r1, r2);
    RouteCommitStep(Moved(s, i, r2), i, o, q);
    MovedTwice(WithQueued(s, i, q), i, r2, q.(pc := Returned(RoutedToReview, true), txn := NO_TXN));
    ExecRepeat(s, e, 0); ExecRepeat(s, e, 1); ExecRepeat(s, e, 2);
    assert Exec(s, Repeat(e, 3)) == Apply(Apply(Apply(s, e), e), e);
  }

  // ---------------------------------------------------------------- completeness

  /** Nobody has published or queued this run id, or is about to. */
  predicate Unclaimed(s: State, i: nat, r: Run) {
    && !PublishedTaken(s, PublishedRowOf(i, r)) && !PublishedHeld(s, i, PublishedRowOf(i, r))
    && !QueueTaken(s, QueueRowOf(i, r)) && !QueueHeld(s, i, QueueRowOf(i, r))
  }

  lemma UnclaimedAtGate(s: State, i: nat, r: Run, q: Run, t: State)
    requires i < |s.runs| && Unclaimed(s, i, r) && q.spec == r.spec
    requires t.published == s.published && t.queue == s.queue && |t.runs| == |s.runs|
    requires forall j | 0 <= j < |s.runs| && j != i :: t.runs[j] == s.runs[j]
    ensures Unclaimed(t, i, q)
  {
  }

  /** The gates are complete: an invocation that meets no fault and no conflicting run id can
      execute its statements one after another, and ends published, with the data it submitted, if
      all its assertions pass, and queued otherwise. */
  lemma UndisturbedRunConcludes(s: State, i: nat, o: Oracle, reference: Value, report: Report) returns (t: State)
    requires ReadyToStage(s, i) && o.fault.NoFault? && ReferenceReady(s, s.runs[i].spec, o, reference)
    requires RunAll(s.runs[i].spec.assertions, s.runs[i].spec.data, reference) == Some(report.results)
    requires report.runId == s.runs[i].spec.runId && Unclaimed(s, i, s.runs[i])
    ensures Leads(s, Step(i, o), t)
    ensures |t.runs| == |s.runs|
    ensures t.runs[i].pc == Returned(if report.AllPassed() then Published else RoutedToReview, true)
    ensures var r := s.runs[i];
      && t.published == (if report.AllPassed()
           then s.published + [PublishedRow(i, r.spec.publishedRef, r.spec.key, r.spec.uuid, r.spec.ref, r.spec.data, o.now)]
           else s.published)
      && t.queue == (if report.AllPassed()
           then s.queue
           else s.queue + [QueueRow(i, r.spec.uuid, r.spec.key, QueueSeverity(report), report, r.spec.ref, o.now)])
      && t.audit == s.audit + [AuditRow(
           i, r.spec.uuid, r.spec.key, if report.AllPassed() then Published else RoutedToReview, report, r.spec.ref,
           if report.AllPassed() then Some(r.spec.publishedRef) else None, None, r.startedAt, o.now)]
  {
    var g := Gated(s, i, o, reference, report);
    StagePhase(s, i, o, reference, report);
    if report.AllPassed() {
      var q := Promoted(g, g.runs[i]);
      UnclaimedAtGate(s, i, s.runs[i], q, g);
      PublishPhase(g, i, o);
      t := Moved(WithPublished(g, i, q), i, q.(pc := Returned(Published, true), txn := NO_TXN));
    } else {
      var q := g.runs[i];
      UnclaimedAtGate(s, i, s.runs[i], q, g);
      RoutePhase(g, i, o);
      t := Moved(WithQueued(g, i, q), i, q.(pc := Returned(RoutedToReview, true), txn := NO_TXN));
    }
    LeadsOn(s, Step(i, o), g, t);
  }
}
