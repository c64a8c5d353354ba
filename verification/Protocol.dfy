/** The write-audit-publish protocol: the four tables, any number of concurrent invocations of
    `run()`, and one step per SQL statement or commit.

    A step is deterministic given an oracle that chooses what the environment decides: the fault,
    whether a failed commit had reached the server, the clock, the row a tied view returns, and the
    answer of an external reference source. A run of the system is a sequence of events, in any
    order and number; an event that cannot happen (a statement waiting for another transaction, a
    deletion waiting for a share lock) leaves the state as it is. */
module Protocol {
  import opened Wrappers
  import opened Json
  import opened Models
  import opened StagingRef

  // ---------------------------------------------------------------- rows

  /** Each row records its `writer`, the invocation whose transaction wrote it. */
  datatype StagedRow = StagedRow(writer: nat, ref: string, key: string, uuid: string, payload: Value)

  datatype PublishedRow = PublishedRow(
    writer: nat, ref: string, key: string, uuid: string, stagingRef: string, payload: Value, publishedAt: int)

  datatype AuditRow = AuditRow(
    writer: nat, uuid: string, key: string, status: RunStatus, report: Report, stagingRef: string,
    publishedRef: Option<string>, error: Option<ErrorKind>, startedAt: int, completedAt: int)

  datatype QueueRow = QueueRow(
    writer: nat, uuid: string, key: string, severity: Severity, report: Report, stagingRef: string, queuedAt: int)

  /** What an open transaction has written but not committed, and the row it holds FOR SHARE. */
  datatype Txn = Txn(
    staged: Option<StagedRow>, published: Option<PublishedRow>, audit: Option<AuditRow>,
    queued: Option<QueueRow>, lock: Option<string>)

  const NO_TXN := Txn(None, None, None, None, None)

  // ---------------------------------------------------------------- invocations

  datatype Source = Snapshot | External

  /** The arguments of `run`, its run_id resolved. */
  datatype Request = Request(key: string, runId: string, data: Value, assertions: seq<Assertion>, source: Source)

  /** A request with what is derived from its names: the staging_ref, the published_ref, the value
      of the UUID column, and whether Postgres casts the run_id to it. */
  datatype Spec = Spec(
    key: string, runId: string, ref: string, publishedRef: string, uuid: string, castable: bool,
    data: Value, assertions: seq<Assertion>, source: Source)
  {
    /** `_validate_dataset_key` and `_validate_payload`. */
    predicate Stageable() {
      ValidKey(key) && (data.Obj? || data.Arr?)
    }
  }

  function SpecOf(q: Request): Spec {
    Spec(q.key, q.runId, Print(q.key, q.runId), PrintPublished(q.key, q.runId), UuidOf(q.runId),
         Castable(q.runId), q.data, q.assertions, q.source)
  }

  /** The statement an invocation executes next. `Escaped` is a `run()` that raised, or whose
      process died; it says which outcome its last commit made durable, if any. `Returned` says
      whether the outcome's audit row was committed. */
  datatype Pc =
    | Staging | StagingCommit | ReadBack | Resolving | Asserting
    | PublishRead | PublishInsert | PublishAudit | PublishCommit
    | RouteQueue | RouteAudit | RouteCommit
    | ErrorAudit | ErrorCommit
    | Returned(status: RunStatus, audited: bool)
    | Escaped(committed: Option<RunStatus>)

  /** `landed`: the staged row was committed, acknowledged or not. `staged` and `promoted` are the rows read back
      and read for promotion; `snapshot` is the published row resolved as reference. `stamp` is the
      clock reading taken by `promote`, `route` or `_errored` before its transaction. */
  datatype Run = Run(
    spec: Spec, startedAt: int, pc: Pc, landed: bool, staged: Option<StagedRow>, snapshot: Option<nat>,
    reference: Option<Value>, report: Option<Report>, stamp: int, promoted: Option<StagedRow>,
    error: Option<ErrorKind>, txn: Txn)

  datatype State = State(
    staging: map<string, StagedRow>, published: seq<PublishedRow>, audit: seq<AuditRow>,
    queue: seq<QueueRow>, runs: seq<Run>)

  // ---------------------------------------------------------------- the rows an invocation writes

  function StagedRowOf(i: nat, spec: Spec): StagedRow {
    StagedRow(i, spec.ref, spec.key, spec.uuid, spec.data)
  }

  function PromotedPayload(r: Run): Value {
    if r.promoted.Some? then r.promoted.value.payload else Null
  }

  function PublishedRowOf(i: nat, r: Run): PublishedRow {
    PublishedRow(i, r.spec.publishedRef, r.spec.key, r.spec.uuid, r.spec.ref, PromotedPayload(r), r.stamp)
  }

  /** `_errored` synthesizes an empty report when there is none yet. */
  function ReportOf(r: Run): Report {
    if r.report.Some? then r.report.value else Report(r.spec.runId, [])
  }

  function AuditRowOf(i: nat, r: Run, status: RunStatus): AuditRow {
    AuditRow(i, r.spec.uuid, r.spec.key, status, ReportOf(r), r.spec.ref,
             if status.Published? then Some(r.spec.publishedRef) else None,
             if status.Errored? then r.error else None, r.startedAt, r.stamp)
  }

  function QueueRowOf(i: nat, r: Run): QueueRow {
    QueueRow(i, r.spec.uuid, r.spec.key, QueueSeverity(ReportOf(r)), ReportOf(r), r.spec.ref, r.stamp)
  }

  // ---------------------------------------------------------------- unique constraints

  predicate SameStaged(a: StagedRow, b: StagedRow) {
    a.ref == b.ref || (a.key == b.key && a.uuid == b.uuid)
  }

  predicate SamePublished(a: PublishedRow, b: PublishedRow) {
    a.ref == b.ref || a.uuid == b.uuid
  }

  predicate StagedTaken(s: State, row: StagedRow) {
    exists ref <- s.staging :: SameStaged(s.staging[ref], row)
  }

  predicate PublishedTaken(s: State, row: PublishedRow) {
    exists p <- s.published :: SamePublished(p, row)
  }

  predicate QueueTaken(s: State, row: QueueRow) {
    exists q <- s.queue :: q.uuid == row.uuid
  }

  /** Another open transaction holds a conflicting uncommitted row: the insert waits for it. */
  predicate StagedHeld(s: State, i: nat, row: StagedRow) {
    exists j | 0 <= j < |s.runs| :: j != i && s.runs[j].txn.staged.Some? && SameStaged(s.runs[j].txn.staged.value, row)
  }

  predicate PublishedHeld(s: State, i: nat, row: PublishedRow) {
    exists j | 0 <= j < |s.runs| ::
      j != i && s.runs[j].txn.published.Some? && SamePublished(s.runs[j].txn.published.value, row)
  }

  predicate QueueHeld(s: State, i: nat, row: QueueRow) {
    exists j | 0 <= j < |s.runs| :: j != i && s.runs[j].txn.queued.Some? && s.runs[j].txn.queued.value.uuid == row.uuid
  }

  predicate Locked(s: State, ref: string) {
    exists j | 0 <= j < |s.runs| :: s.runs[j].txn.lock == Some(ref)
  }

  // ---------------------------------------------------------------- the view

  /** Row k may be the row `published.latest_by_dataset` shows for the key. */
  predicate IsLatest(published: seq<PublishedRow>, key: string, k: nat) {
    && k < |published| && published[k].key == key
    && forall p <- published :: p.key == key ==> p.publishedAt <= published[k].publishedAt
  }

  predicate HasRows(published: seq<PublishedRow>, key: string) {
    exists p <- published :: p.key == key
  }

  // ---------------------------------------------------------------- oracles and events

  /** DbError is a psycopg2.Error (for an external source: a ReferenceResolutionError), OtherError
      any other exception, Killed the death of the process. */
  datatype Fault = NoFault | DbError | OtherError | Killed

  datatype Oracle = Oracle(fault: Fault, ackLost: bool, now: int, pick: nat, external: Value)

  datatype Event =
    | Launch(request: Request, now: int)
    | Step(i: nat, o: Oracle)
    | Truncate(ref: string)

  datatype Move = Blocked | Next(run: Run, commits: bool)

  function Fail(r: Run, error: ErrorKind, now: int): Run {
    r.(pc := ErrorAudit, error := Some(error), stamp := now, promoted := None, txn := NO_TXN)
  }

  function Escape(r: Run, committed: Option<RunStatus>): Run {
    r.(pc := Escaped(committed), promoted := if committed == Some(Published) then r.promoted else None, txn := NO_TXN)
  }

  /** `run` up to the staging writer: the non-empty guard, and the writer factory that validates
      the run_id outside any try block. */
  function Launched(q: Request, now: int): Run {
    Run(SpecOf(q), now, if q.assertions == [] || !ValidRunId(q.runId) then Escaped(None) else Staging,
        false, None, None, None, None, now, None, None, NO_TXN)
  }

  // ---------------------------------------------------------------- statements

  function StepStaging(s: State, i: nat, r: Run, o: Oracle): Move {
    var row := StagedRowOf(i, r.spec);
    if !r.spec.Stageable() then Next(Fail(r, WriteFailed, o.now), false)
    else if o.fault.OtherError? then Next(Escape(r, None), false)
    else if o.fault.DbError? || !r.spec.castable || StagedTaken(s, row) then Next(Fail(r, WriteFailed, o.now), false)
    else if StagedHeld(s, i, row) then Blocked
    else Next(r.(pc := StagingCommit, txn := NO_TXN.(staged := Some(row))), false)
  }

  function StepStagingCommit(r: Run, o: Oracle): Move {
    match o.fault
    case NoFault => Next(r.(pc := ReadBack, landed := true, txn := NO_TXN), true)
    case DbError => Next(Fail(r.(landed := r.landed || o.ackLost), WriteFailed, o.now), o.ackLost)
    case _ => Next(Escape(r.(landed := r.landed || o.ackLost), None), o.ackLost)
  }

  /** The staging_ref parses exactly when the run_id has the 36-character form
      (StagingRef.StagedRunIdReadsBack). */
  function StepReadBack(s: State, r: Run, o: Oracle): Move {
    var ref := r.spec.ref;
    if !RefRunId(r.spec.runId) then Next(Fail(r, ReadBackFailed, o.now), false)
    else if o.fault.OtherError? then Next(Escape(r, None), false)
    else if o.fault.DbError? || ref !in s.staging then Next(Fail(r, ReadBackFailed, o.now), false)
    else Next(r.(pc := Resolving, staged := Some(s.staging[ref])), false)
  }

  /** `dict(payload)`: a dict as it is, the empty list as the empty dict, otherwise an exception. */
  function AsDict(payload: Value): Option<Value> {
    if payload.Obj? then Some(payload)
    else if payload == Arr([]) then Some(Obj(map[]))
    else None
  }

  function StepResolving(s: State, r: Run, o: Oracle): Move {
    if o.fault.OtherError? then Next(Escape(r, None), false)
    else if o.fault.DbError? then Next(Fail(r, ReferenceFailed, o.now), false)
    else if r.spec.source.External? then Next(r.(pc := Asserting, reference := Some(o.external)), false)
    else if !HasRows(s.published, r.spec.key) then Next(Fail(r, ReferenceFailed, o.now), false)
    else if !IsLatest(s.published, r.spec.key, o.pick) then Blocked
    else
      match AsDict(s.published[o.pick].payload)
      case None => Next(Escape(r, None), false)
      case Some(dict) => Next(r.(pc := Asserting, snapshot := Some(o.pick), reference := Some(dict)), false)
  }

  /** Steps 4 and 5 of `run`: every assertion, the report, the branch, the gate of the chosen
      branch and its clock reading. */
  function StepAsserting(r: Run, o: Oracle): Move
    requires r.staged.Some? && r.reference.Some?
  {
    match RunAll(r.spec.assertions, r.staged.value.payload, r.reference.value)
    case None => Next(Escape(r, None), false)
    case Some(results) =>
      var report := Report(r.spec.runId, results);
      var reported := r.(report := Some(report), stamp := o.now);
      if report.AllPassed() then
        if PublishGate(report) then Next(reported.(pc := PublishRead), false)
        else Next(Fail(reported, PublishRefused, o.now), false)
      else
        if ReviewGate(report) then Next(reported.(pc := RouteQueue), false)
        else Next(Fail(reported, RoutingRefused, o.now), false)
  }

  /** In `promote` and `route` a plain psycopg2.Error is re-raised and leaves `run`. */
  function StepPublishRead(s: State, r: Run, o: Oracle): Move {
    var ref := r.spec.ref;
    if !o.fault.NoFault? then Next(Escape(r, None), false)
    else if ref !in s.staging then Next(Fail(r, PublishRefused, o.now), false)
    else Next(r.(pc := PublishInsert, promoted := Some(s.staging[ref]), txn := NO_TXN.(lock := Some(ref))), false)
  }

  function StepPublishInsert(s: State, i: nat, r: Run, o: Oracle): Move {
    var row := PublishedRowOf(i, r);
    if !o.fault.NoFault? then Next(Escape(r, None), false)
    else if PublishedTaken(s, row) then Next(Fail(r, PublishRefused, o.now), false)
    else if PublishedHeld(s, i, row) then Blocked
    else Next(r.(pc := PublishAudit, txn := r.txn.(published := Some(row))), false)
  }

  function StepPublishAudit(i: nat, r: Run, o: Oracle): Move {
    if !o.fault.NoFault? then Next(Escape(r, None), false)
    else Next(r.(pc := PublishCommit, txn := r.txn.(audit := Some(AuditRowOf(i, r, Published)))), false)
  }

  function StepOutcomeCommit(r: Run, o: Oracle, status: RunStatus): Move {
    if o.fault.NoFault? then Next(r.(pc := Returned(status, true), txn := NO_TXN), true)
    else Next(Escape(r, if o.ackLost then Some(status) else None), o.ackLost)
  }

  function StepRouteQueue(s: State, i: nat, r: Run, o: Oracle): Move {
    var row := QueueRowOf(i, r);
    if !o.fault.NoFault? then Next(Escape(r, None), false)
    else if QueueTaken(s, row) then Next(Fail(r, RoutingRefused, o.now), false)
    else if QueueHeld(s, i, row) then Blocked
    else Next(r.(pc := RouteAudit, txn := NO_TXN.(queued := Some(row))), false)
  }

  function StepRouteAudit(i: nat, r: Run, o: Oracle): Move {
    if !o.fault.NoFault? then Next(Escape(r, None), false)
    else Next(r.(pc := RouteCommit, txn := r.txn.(audit := Some(AuditRowOf(i, r, RoutedToReview)))), false)
  }

  /** `_errored` swallows every exception of its own audit write, which casts the run_id as well. */
  function StepErrorAudit(i: nat, r: Run, o: Oracle): Move {
    if !o.fault.NoFault? || !r.spec.castable then Next(r.(pc := Returned(RunStatus.Errored, false)), false)
    else Next(r.(pc := ErrorCommit, txn := NO_TXN.(audit := Some(AuditRowOf(i, r, RunStatus.Errored)))), false)
  }

  function StepErrorCommit(r: Run, o: Oracle): Move {
    match o.fault
    case NoFault => Next(r.(pc := Returned(RunStatus.Errored, true), txn := NO_TXN), true)
    case Killed => Next(Escape(r, if o.ackLost then Some(RunStatus.Errored) else None), o.ackLost)
    case _ => Next(r.(pc := Returned(RunStatus.Errored, o.ackLost), txn := NO_TXN), o.ackLost)
  }

  predicate Committing(pc: Pc) {
    pc.StagingCommit? || pc.PublishCommit? || pc.RouteCommit? || pc.ErrorCommit?
  }

  predicate Finished(pc: Pc) {
    pc.Returned? || pc.Escaped?
  }

  function StepOf(s: State, i: nat, o: Oracle): Move
    requires i < |s.runs|
  {
    var r := s.runs[i];
    if Finished(r.pc) then Blocked
    else if o.fault.Killed? && !Committing(r.pc) then Next(Escape(r, None), false)
    else
      match r.pc
      case Staging => StepStaging(s, i, r, o)
      case StagingCommit => StepStagingCommit(r, o)
      case ReadBack => StepReadBack(s, r, o)
      case Resolving => StepResolving(s, r, o)
      case Asserting => if r.staged.Some? && r.reference.Some? then StepAsserting(r, o) else Blocked
      case PublishRead => StepPublishRead(s, r, o)
      case PublishInsert => StepPublishInsert(s, i, r, o)
      case PublishAudit => StepPublishAudit(i, r, o)
      case PublishCommit => StepOutcomeCommit(r, o, Published)
      case RouteQueue => StepRouteQueue(s, i, r, o)
      case RouteAudit => StepRouteAudit(i, r, o)
      case RouteCommit => StepOutcomeCommit(r, o, RoutedToReview)
      case ErrorAudit => StepErrorAudit(i, r, o)
      case ErrorCommit => StepErrorCommit(r, o)
      case _ => Blocked
  }

  // ---------------------------------------------------------------- transitions

  function Opt<T>(o: Option<T>): seq<T> {
    match o case None => [] case Some(x) => [x]
  }

  /** COMMIT: every pending row becomes visible at once. */
  function Flush(s: State, t: Txn): State {
    s.(staging := if t.staged.Some? then s.staging[t.staged.value.ref := t.staged.value] else s.staging,
       published := s.published + Opt(t.published),
       audit := s.audit + Opt(t.audit),
       queue := s.queue + Opt(t.queued))
  }

  function Take(s: State, i: nat, m: Move): State
    requires i < |s.runs|
  {
    match m
    case Blocked => s
    case Next(r, commits) => (if commits then Flush(s, s.runs[i].txn) else s).(runs := s.runs[i := r])
  }

  /** One event. A deletion from staging waits for share locks. */
  function Apply(s: State, e: Event): State {
    match e
    case Launch(q, now) => s.(runs := s.runs + [Launched(q, now)])
    case Step(i, o) => if i < |s.runs| then Take(s, i, StepOf(s, i, o)) else s
    case Truncate(ref) => if Locked(s, ref) then s else s.(staging := s.staging - {ref})
  }

  function Exec(s: State, events: seq<Event>): State {
    if events == [] then s
    else Apply(Exec(s, events[..|events| - 1]), events[|events| - 1])
  }

  /** Empty tables but for records published beforehand, as bootstrap seeding does. */
  function Init(seed: seq<PublishedRow>): State {
    State(map[], seed, [], [], [])
  }

  predicate ValidSeed(seed: seq<PublishedRow>) {
    forall k, l | 0 <= k < l < |seed| :: !SamePublished(seed[k], seed[l])
  }

  /** The outcome an invocation has made durable. */
  function Committed(r: Run): Option<RunStatus> {
    match r.pc
    case Returned(status, audited) => if audited then Some(status) else None
    case Escaped(committed) => committed
    case _ => None
  }
}
