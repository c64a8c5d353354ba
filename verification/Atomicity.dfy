/** The statement-by-statement machine refines one in which each transaction is a single
    all-or-nothing step: there are no pending rows and no locks, and everything any invocation can
    read changes only by whole transactions. */
module Atomicity {
  import opened Wrappers
  import opened Models
  import opened Protocol
  import opened Invariants

  // ---------------------------------------------------------------- the atomic machine

  datatype AtomicEvent =
    | Begin(request: Request, now: int)
    | Delete(ref: string)
    | Read(i: nat, o: Oracle)
    | Transact(i: nat, o: Oracle)

  /** All effects of a transaction at once: the invocation afterwards, and the rows appended. */
  datatype Outcome = Outcome(
    run: Run, staged: Option<StagedRow>, published: Option<PublishedRow>, audit: Option<AuditRow>, queued: Option<QueueRow>)

  function Nothing(r: Run): Outcome {
    Outcome(r, None, None, None, None)
  }

  /** The transaction failed and left nothing behind. */
  predicate Lost(o: Oracle) {
    !o.fault.NoFault? && !o.ackLost
  }

  function StagingOutcome(s: State, i: nat, r: Run, o: Oracle): Outcome {
    var row := StagedRowOf(i, r.spec);
    if o.fault.Killed? && !o.ackLost then Nothing(Escape(r, None))
    else if !r.spec.Stageable() then Nothing(Fail(r, WriteFailed, o.now))
    else if o.fault.OtherError? && !o.ackLost then Nothing(Escape(r, None))
    else if Lost(o) || !r.spec.castable || StagedTaken(s, row) then Nothing(Fail(r, WriteFailed, o.now))
    else
      var next := match o.fault
        case NoFault => r.(pc := ReadBack)
        case DbError => Fail(r, WriteFailed, o.now)
        case _ => Escape(r, None);
      Outcome(next.(landed := true), Some(row), None, None, None)
  }

  function Concluded(r: Run, o: Oracle, status: RunStatus): Run {
    if o.fault.NoFault? then r.(pc := Returned(status, true)) else Escape(r, Some(status))
  }

  function PublishOutcome(s: State, i: nat, r: Run, o: Oracle): Outcome {
    var ref := r.spec.ref;
    if Lost(o) then Nothing(Escape(r, None))
    else if ref !in s.staging then Nothing(Fail(r, PublishRefused, o.now))
    else
      var read := r.(promoted := Some(s.staging[ref]));
      var row := PublishedRowOf(i, read);
      if PublishedTaken(s, row) then Nothing(Fail(r, PublishRefused, o.now))
      else Outcome(Concluded(read, o, Published), None, Some(row), Some(AuditRowOf(i, read, Published)), None)
  }

  function RouteOutcome(s: State, i: nat, r: Run, o: Oracle): Outcome {
    var row := QueueRowOf(i, r);
    if Lost(o) then Nothing(Escape(r, None))
    else if QueueTaken(s, row) then Nothing(Fail(r, RoutingRefused, o.now))
    else Outcome(Concluded(r, o, RoutedToReview), None, None, Some(AuditRowOf(i, r, RoutedToReview)), Some(row))
  }

  function ErrorOutcome(i: nat, r: Run, o: Oracle): Outcome {
    if Lost(o) || !r.spec.castable then
      Nothing(if o.fault.Killed? then Escape(r, None) else r.(pc := Returned(RunStatus.Errored, false)))
    else
      var next := if o.fault.Killed? then Escape(r, Some(RunStatus.Errored)) else r.(pc := Returned(RunStatus.Errored, true));
      Outcome(next, None, None, Some(AuditRowOf(i, r, RunStatus.Errored)), None)
  }

  function OutcomeOf(s: State, i: nat, o: Oracle): Outcome
    requires i < |s.runs|
  {
    var r := s.runs[i];
    match r.pc
    case Staging => StagingOutcome(s, i, r, o)
    case PublishRead => PublishOutcome(s, i, r, o)
    case RouteQueue => RouteOutcome(s, i, r, o)
    case ErrorAudit => ErrorOutcome(i, r, o)
    case _ => Nothing(r)
  }

  predicate Reading(pc: Pc) {
    pc.ReadBack? || pc.Resolving? || pc.Asserting?
  }

  function AtomicApply(s: State, e: AtomicEvent): State {
    match e
    case Begin(q, now) => s.(runs := s.runs + [Launched(q, now)])
    case Delete(ref) => s.(staging := s.staging - {ref})
    case Read(i, o) => if i < |s.runs| && Reading(s.runs[i].pc) then Take(s, i, StepOf(s, i, o)) else s
    case Transact(i, o) =>
      if i < |s.runs| then
        var c := OutcomeOf(s, i, o);
        State(if c.staged.Some? then s.staging[c.staged.value.ref := c.staged.value] else s.staging,
              s.published + Opt(c.published), s.audit + Opt(c.audit), s.queue + Opt(c.queued), s.runs[i := c.run])
      else s
  }

  function AtomicExec(s: State, events: seq<AtomicEvent>): State {
    if events == [] then s
    else AtomicApply(AtomicExec(s, events[..|events| - 1]), events[|events| - 1])
  }

  // ---------------------------------------------------------------- the abstraction

  /** An invocation inside a transaction is seen as about to start it. */
  function Collapse(r: Run): Run {
    match r.pc
    case StagingCommit => r.(pc := Staging, txn := NO_TXN)
    case PublishInsert | PublishAudit | PublishCommit => r.(pc := PublishRead, promoted := None, txn := NO_TXN)
    case RouteAudit | RouteCommit => r.(pc := RouteQueue, txn := NO_TXN)
    case ErrorCommit => r.(pc := ErrorAudit, txn := NO_TXN)
    case _ => r
  }

  function CollapseAll(runs: seq<Run>): (c: seq<Run>)
    ensures |c| == |runs|
    ensures forall i | 0 <= i < |runs| :: c[i] == Collapse(runs[i])
  {
    seq(|runs|, i requires 0 <= i < |runs| => Collapse(runs[i]))
  }

  function View(s: State): State {
    s.(runs := CollapseAll(s.runs))
  }

  predicate MidTransaction(pc: Pc) {
    || pc.StagingCommit? || pc.PublishInsert? || pc.PublishAudit? || pc.PublishCommit?
    || pc.RouteAudit? || pc.RouteCommit? || pc.ErrorCommit?
  }

  /** The atomic event that one statement amounts to: none while a transaction goes on or waits,
      one when it ends. A fault before the commit leaves nothing behind. */
  function AtomicOf(s: State, e: Event): Option<AtomicEvent> {
    match e
    case Launch(q, now) => Some(Begin(q, now))
    case Truncate(ref) => if Locked(s, ref) then None else Some(Delete(ref))
    case Step(i, o) =>
      if i >= |s.runs| then None
      else
        match StepOf(s, i, o)
        case Blocked => None
        case Next(r, _) =>
          if MidTransaction(r.pc) then None
          else if Reading(s.runs[i].pc) then Some(Read(i, o))
          else if Committing(s.runs[i].pc) then Some(Transact(i, o))
          else Some(Transact(i, o.(ackLost := false)))
  }

  function AtomsOf(s: State, events: seq<Event>): seq<AtomicEvent> {
    if events == [] then []
    else
      var before := events[..|events| - 1];
      AtomsOf(s, before) + Opt(AtomicOf(Exec(s, before), events[|events| - 1]))
  }

  // ---------------------------------------------------------------- refinement

  lemma CollapseUpdate(runs: seq<Run>, i: nat, r: Run)
    requires i < |runs|
    ensures CollapseAll(runs[i := r]) == CollapseAll(runs)[i := Collapse(r)]
  {
  }

  /** Continuing inside a transaction changes nothing visible. */
  lemma SilentStep(s: State, i: nat, o: Oracle)
    requires Inv(s) && i < |s.runs| && StepOf(s, i, o).Next? && MidTransaction(StepOf(s, i, o).run.pc)
    ensures View(Apply(s, Step(i, o))) == View(s)
  {
    var r, q := s.runs[i], StepOf(s, i, o).run;
    StepSource(s, i, o);
    StepTables(s, i, o);
    CollapseUpdate(s.runs, i, q);
    assert RunOk(s, i);
    SilentRun(s, i, o);
    assert CollapseAll(s.runs)[i := Collapse(r)] == CollapseAll(s.runs);
  }

  lemma SilentRun(s: State, i: nat, o: Oracle)
    requires i < |s.runs| && s.runs[i].txn == PendingTxn(i, s.runs[i]) && PcOk(s.runs[i])
    requires StepOf(s, i, o).Next? && MidTransaction(StepOf(s, i, o).run.pc)
    ensures Collapse(StepOf(s, i, o).run) == Collapse(s.runs[i])
  {
    var r, q := s.runs[i], StepOf(s, i, o).run;
    StepSource(s, i, o);
    match q.pc
    case StagingCommit => assert q == r.(pc := q.pc, txn := q.txn);
    case PublishInsert => assert q == r.(pc := q.pc, txn := q.txn, promoted := q.promoted);
    case PublishAudit | PublishCommit => assert q == r.(pc := q.pc, txn := q.txn);
    case RouteAudit | RouteCommit => assert q == r.(pc := q.pc, txn := q.txn);
    case ErrorCommit => assert r.pc.ErrorAudit? && q == r.(pc := q.pc, txn := q.txn);
  }

  /** Statements outside transactions see the tables alone. */
  lemma ReadsSeeTables(s: State, i: nat, o: Oracle)
    requires i < |s.runs| && Reading(s.runs[i].pc)
    ensures StepOf(View(s), i, o) == StepOf(s, i, o)
    ensures StepOf(s, i, o).Next? ==> !StepOf(s, i, o).commits && Collapse(StepOf(s, i, o).run) == StepOf(s, i, o).run
  {
    match s.runs[i].pc
    case ReadBack =>
    case Resolving =>
    case Asserting =>
  }

  lemma ReadStep(s: State, i: nat, o: Oracle)
    requires i < |s.runs| && StepOf(s, i, o).Next? && Reading(s.runs[i].pc)
    ensures View(Apply(s, Step(i, o))) == AtomicApply(View(s), Read(i, o))
  {
    CollapseUpdate(s.runs, i, StepOf(s, i, o).run);
    ReadsSeeTables(s, i, o);
    StepTables(s, i, o);
  }

  /** The end of a transaction, committed or not, is the whole transaction on the view. */
  lemma EndStep(s: State, i: nat, o: Oracle, a: Oracle)
    requires Inv(s) && i < |s.runs| && StepOf(s, i, o).Next?
    requires !Reading(s.runs[i].pc) && !MidTransaction(StepOf(s, i, o).run.pc)
    requires a == if Committing(s.runs[i].pc) then o else o.(ackLost := false)
    ensures View(Apply(s, Step(i, o))) == AtomicApply(View(s), Transact(i, a))
  {
    var m := StepOf(s, i, o);
    StepTables(s, i, o);
    CollapseUpdate(s.runs, i, m.run);
    EndOutcome(s, i, o, a);
    PendingFits(s, i, o);
  }

  ghost predicate OutcomeFits(s: State, i: nat, m: Move, c: Outcome)
    requires i < |s.runs| && m.Next?
  {
    && c.run == Collapse(m.run)
    && c.staged == (if m.commits then s.runs[i].txn.staged else None)
    && c.published == (if m.commits then s.runs[i].txn.published else None)
    && c.audit == (if m.commits then s.runs[i].txn.audit else None)
    && c.queued == (if m.commits then s.runs[i].txn.queued else None)
  }

  lemma EndOutcome(s: State, i: nat, o: Oracle, a: Oracle)
    requires Inv(s) && i < |s.runs| && StepOf(s, i, o).Next?
    requires !Reading(s.runs[i].pc) && !MidTransaction(StepOf(s, i, o).run.pc)
    requires a == if Committing(s.runs[i].pc) then o else o.(ackLost := false)
    ensures OutcomeFits(s, i, StepOf(s, i, o), OutcomeOf(View(s), i, a))
  {
    match s.runs[i].pc
    case Staging | StagingCommit => EndStaging(s, i, o, a);
    case PublishRead => EndPublishRead(s, i, o, a);
    case PublishInsert | PublishAudit => EndPublishInsert(s, i, o, a);
    case PublishCommit => EndPublishCommit(s, i, o);
    case RouteQueue | RouteAudit => EndRoute(s, i, o, a);
    case RouteCommit => EndRouteCommit(s, i, o);
    case ErrorAudit | ErrorCommit => EndError(s, i, o, a);
    case _ => assert false;
  }

  lemma EndStaging(s: State, i: nat, o: Oracle, a: Oracle)
    requires Inv(s) && i < |s.runs| && StepOf(s, i, o).Next? && (s.runs[i].pc.Staging? || s.runs[i].pc.StagingCommit?)
    requires !MidTransaction(StepOf(s, i, o).run.pc)
    requires a == if Committing(s.runs[i].pc) then o else o.(ackLost := false)
    ensures OutcomeFits(s, i, StepOf(s, i, o), OutcomeOf(View(s), i, a))
  {
    var r, row := s.runs[i], StagedRowOf(i, s.runs[i].spec);
    assert RunOk(s, i) && PcOk(r) && r.txn == PendingTxn(i, r);
    assert PendingRowsOk(s, i);
    assert StagedTaken(View(s), row) == StagedTaken(s, row);
  }

  /** Of the run inside its publish transaction, the view keeps what the transaction needs. */
  lemma LockedRow(s: State, i: nat)
    requires Inv(s) && i < |s.runs| && s.runs[i].txn.lock.Some?
    ensures var r := s.runs[i]; var ref := r.spec.ref;
      && ref in s.staging && r.promoted == Some(s.staging[ref])
      && PublishedRowOf(i, Collapse(r).(promoted := Some(s.staging[ref]))) == PublishedRowOf(i, r)
      && PublishedTaken(View(s), PublishedRowOf(i, r)) == PublishedTaken(s, PublishedRowOf(i, r))
      && (s.runs[i].txn.published == Some(PublishedRowOf(i, r)) ==> !PublishedTaken(s, PublishedRowOf(i, r)))
  {
    assert RunOk(s, i) && LockOk(s, i) && PendingRowsOk(s, i);
  }

  lemma EndPublishRead(s: State, i: nat, o: Oracle, a: Oracle)
    requires Inv(s) && i < |s.runs| && StepOf(s, i, o).Next? && s.runs[i].pc.PublishRead?
    requires !MidTransaction(StepOf(s, i, o).run.pc) && a == o.(ackLost := false)
    ensures OutcomeFits(s, i, StepOf(s, i, o), OutcomeOf(View(s), i, a))
  {
    assert RunOk(s, i);
  }

  lemma EndPublishInsert(s: State, i: nat, o: Oracle, a: Oracle)
    requires Inv(s) && i < |s.runs| && StepOf(s, i, o).Next?
    requires s.runs[i].pc.PublishInsert? || s.runs[i].pc.PublishAudit?
    requires !MidTransaction(StepOf(s, i, o).run.pc) && a == o.(ackLost := false)
    ensures OutcomeFits(s, i, StepOf(s, i, o), OutcomeOf(View(s), i, a))
  {
    assert RunOk(s, i);
    LockedRow(s, i);
  }

  lemma EndPublishCommit(s: State, i: nat, o: Oracle)
    requires Inv(s) && i < |s.runs| && StepOf(s, i, o).Next? && s.runs[i].pc.PublishCommit?
    ensures OutcomeFits(s, i, StepOf(s, i, o), OutcomeOf(View(s), i, o))
  {
    assert RunOk(s, i);
    LockedRow(s, i);
  }

  lemma EndRoute(s: State, i: nat, o: Oracle, a: Oracle)
    requires Inv(s) && i < |s.runs| && StepOf(s, i, o).Next? && (s.runs[i].pc.RouteQueue? || s.runs[i].pc.RouteAudit?)
    requires !MidTransaction(StepOf(s, i, o).run.pc) && a == o.(ackLost := false)
    ensures OutcomeFits(s, i, StepOf(s, i, o), OutcomeOf(View(s), i, a))
  {
    assert RunOk(s, i);
    assert QueueTaken(View(s), QueueRowOf(i, s.runs[i])) == QueueTaken(s, QueueRowOf(i, s.runs[i]));
  }

  lemma QueuedRow(s: State, i: nat)
    requires Inv(s) && i < |s.runs| && s.runs[i].pc.RouteCommit?
    ensures var row := QueueRowOf(i, s.runs[i]);
      s.runs[i].txn == NO_TXN.(queued := Some(row), audit := Some(AuditRowOf(i, s.runs[i], RoutedToReview)))
      && !QueueTaken(View(s), row) && QueueRowOf(i, Collapse(s.runs[i])) == row && s.runs[i].promoted.None?
  {
    assert RunOk(s, i) && PendingRowsOk(s, i);
  }

  lemma EndRouteCommit(s: State, i: nat, o: Oracle)
    requires Inv(s) && i < |s.runs| && StepOf(s, i, o).Next? && s.runs[i].pc.RouteCommit?
    ensures OutcomeFits(s, i, StepOf(s, i, o), OutcomeOf(View(s), i, o))
  {
    QueuedRow(s, i);
    assert StepOf(s, i, o) == StepOutcomeCommit(s.runs[i], o, RoutedToReview);
  }

  lemma EndError(s: State, i: nat, o: Oracle, a: Oracle)
    requires Inv(s) && i < |s.runs| && StepOf(s, i, o).Next? && (s.runs[i].pc.ErrorAudit? || s.runs[i].pc.ErrorCommit?)
    requires !MidTransaction(StepOf(s, i, o).run.pc)
    requires a == if Committing(s.runs[i].pc) then o else o.(ackLost := false)
    ensures OutcomeFits(s, i, StepOf(s, i, o), OutcomeOf(View(s), i, a))
  {
    assert RunOk(s, i) && PcOk(s.runs[i]) && s.runs[i].txn == PendingTxn(i, s.runs[i]);
  }

  lemma {:induction false} ApplyRefines(s: State, e: Event)
    requires Inv(s)
    ensures View(Apply(s, e)) == match AtomicOf(s, e) case None => View(s) case Some(f) => AtomicApply(View(s), f)
  {
    match e
    case Launch(q, now) =>
      assert CollapseAll(s.runs + [Launched(q, now)]) == CollapseAll(s.runs) + [Launched(q, now)];
    case Truncate(ref) =>
    case Step(i, o) =>
      if i < |s.runs| && StepOf(s, i, o).Next? {
        if MidTransaction(StepOf(s, i, o).run.pc) {
          SilentStep(s, i, o);
        } else if Reading(s.runs[i].pc) {
          ReadStep(s, i, o);
        } else {
          EndStep(s, i, o, if Committing(s.runs[i].pc) then o else o.(ackLost := false));
        }
      }
  }

  lemma AtomicExecAppend(s: State, a: seq<AtomicEvent>, f: Option<AtomicEvent>)
    ensures AtomicExec(s, a + Opt(f)) ==
      match f case None => AtomicExec(s, a) case Some(x) => AtomicApply(AtomicExec(s, a), x)
  {
    match f
    case None => assert a + [] == a;
    case Some(x) => assert (a + [x])[..|a|] == a;
  }

  /** Transaction refinement over whole runs: whatever statements interleave and fail, the tables
      and the invocations between transactions are those of a run in which every transaction
      happens at once, at its commit, or not at all. */
  lemma {:induction false} TransactionsAreAtomic(seed: seq<PublishedRow>, events: seq<Event>)
    requires ValidSeed(seed)
    ensures View(Exec(Init(seed), events)) == AtomicExec(Init(seed), AtomsOf(Init(seed), events))
  {
    if events == [] {
      assert CollapseAll([]) == [];
    } else {
      var before, e := events[..|events| - 1], events[|events| - 1];
      var s := Exec(Init(seed), before);
      TransactionsAreAtomic(seed, before);
      ReachableInv(seed, before);
      ApplyRefines(s, e);
      AtomicExecAppend(Init(seed), AtomsOf(Init(seed), before), AtomicOf(s, e));
    }
  }
}
