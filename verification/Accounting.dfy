/** Which invocations leave an audit row, in terms of what was asked of them and what went wrong. */
module Accounting {
  import opened Wrappers
  import opened Json
  import opened Models
  import opened StagingRef
  import opened Protocol
  import opened Invariants
  import opened Evidence

  /** The outcome that the commit statement at a program counter makes durable. */
  function OutcomeAt(pc: Pc): Option<RunStatus> {
    match pc
    case PublishCommit => Some(Published)
    case RouteCommit => Some(RoutedToReview)
    case ErrorCommit => Some(RunStatus.Errored)
    case _ => None
  }

  /** The commit reached the server: it was acknowledged, or only its acknowledgement was lost. */
  predicate Reached(o: Oracle) {
    o.fault.NoFault? || o.ackLost
  }

  /** Event k is the commit of an outcome of invocation i, and it reached the server. */
  ghost predicate CommitsAt(seed: seq<PublishedRow>, events: seq<Event>, i: nat, status: RunStatus, k: nat) {
    && k < |events| && events[k].Step? && events[k].i == i && Reached(events[k].o)
    && var s := Exec(Init(seed), events[..k]);
       i < |s.runs| && OutcomeAt(s.runs[i].pc) == Some(status)
  }

  ghost predicate Commits(seed: seq<PublishedRow>, events: seq<Event>, i: nat, status: RunStatus) {
    exists k :: CommitsAt(seed, events, i, status, k)
  }

  /** What one more event adds to a condition on the events so far. */
  lemma CommitsAfter(seed: seq<PublishedRow>, events: seq<Event>, i: nat, status: RunStatus)
    requires events != []
    ensures var n := |events| - 1;
      Commits(seed, events, i, status) <==> Commits(seed, events[..n], i, status) || CommitsAt(seed, events, i, status, n)
  {
    var n := |events| - 1;
    var before := events[..n];
    forall k | 0 <= k < n ensures CommitsAt(seed, events, i, status, k) <==> CommitsAt(seed, before, i, status, k) {
      assert before[..k] == events[..k];
    }
    if Commits(seed, before, i, status) {
      var k :| CommitsAt(seed, before, i, status, k);
      assert CommitsAt(seed, events, i, status, k);
    }
  }

  lemma StepRecords(s: State, i: nat, o: Oracle)
    requires i < |s.runs|
    ensures StepOf(s, i, o).Next? ==>
      Committed(StepOf(s, i, o).run) == if Reached(o) then OutcomeAt(s.runs[i].pc) else None
    ensures StepOf(s, i, o).Next? ==> Committed(s.runs[i]).None?
    ensures OutcomeAt(s.runs[i].pc).Some? ==> StepOf(s, i, o).Next?
  {
  }

  /** The only events that record an outcome of an invocation are its commits that reach the
      server. */
  lemma ApplyRecords(s: State, e: Event, i: nat, status: RunStatus)
    requires i < |Apply(s, e).runs|
    ensures Committed(Apply(s, e).runs[i]) == Some(status) <==>
      || (i < |s.runs| && Committed(s.runs[i]) == Some(status))
      || (i < |s.runs| && e.Step? && e.i == i && Reached(e.o) && OutcomeAt(s.runs[i].pc) == Some(status))
  {
    if e.Step? && e.i == i && i < |s.runs| {
      StepRecords(s, i, e.o);
    }
  }

  /** An outcome is durable if and only if one of the events is the commit of that outcome and
      reached the server. */
  lemma {:induction false} DurableIffCommitted(seed: seq<PublishedRow>, events: seq<Event>, i: nat, status: RunStatus)
    requires i < |Exec(Init(seed), events).runs|
    ensures Committed(Exec(Init(seed), events).runs[i]) == Some(status) <==> Commits(seed, events, i, status)
  {
    if events != [] {
      var n := |events| - 1;
      var s := Exec(Init(seed), events[..n]);
      if i < |s.runs| {
        DurableIffCommitted(seed, events[..n], i, status);
      } else {
        NotYetLaunched(seed, events[..n], i, status);
      }
      ApplyRecords(s, events[n], i, status);
      CommitsAfter(seed, events, i, status);
    }
  }

  lemma {:induction false} NotYetLaunched(seed: seq<PublishedRow>, events: seq<Event>, i: nat, status: RunStatus)
    requires |Exec(Init(seed), events).runs| <= i
    ensures !Commits(seed, events, i, status)
  {
    if events != [] {
      var n := |events| - 1;
      ApplyKeepsSpecs(Exec(Init(seed), events[..n]), events[n]);
      NotYetLaunched(seed, events[..n], i, status);
      CommitsAfter(seed, events, i, status);
    }
  }

  /** The audit trail of an invocation, decided by the events: one row for the outcome whose commit
      reached the server, and none if there is no such commit. A run_id that Postgres does not cast
      never has one. */
  lemma AuditedIffCommitReached(seed: seq<PublishedRow>, events: seq<Event>, i: nat)
    requires ValidSeed(seed) && i < |Exec(Init(seed), events).runs|
    ensures var s := Exec(Init(seed), events); var r := s.runs[i];
      && (forall status :: Commits(seed, events, i, status) ==> AuditBy(s.audit, i) == [AuditRowOf(i, r, status)] && r.spec.castable)
      && ((forall status :: !Commits(seed, events, i, status)) ==> AuditBy(s.audit, i) == [])
  {
    var s := Exec(Init(seed), events);
    ReachableInv(seed, events);
    ReachableLedgers(seed, events);
    assert RunOk(s, i) && Ledger(s, |seed|, i);
    forall status ensures Commits(seed, events, i, status) <==> Committed(s.runs[i]) == Some(status) {
      DurableIffCommitted(seed, events, i, status);
    }
  }

  // ---------------------------------------------------------------- invocations that meet no fault

  /** No statement of the invocation met a fault. */
  ghost predicate FaultFree(seed: seq<PublishedRow>, events: seq<Event>, i: nat) {
    events == [] ||
      var n := |events| - 1;
      && FaultFree(seed, events[..n], i)
      && (events[n].Step? && events[n].i == i && i < |Exec(Init(seed), events[..n]).runs| ==> events[n].o.fault.NoFault?)
  }

  /** Event k resolves the snapshot of invocation i, and the view shows a payload that is no dict. */
  ghost predicate NoDictAt(seed: seq<PublishedRow>, events: seq<Event>, i: nat, k: nat) {
    && k < |events| && events[k].Step? && events[k].i == i
    && var s := Exec(Init(seed), events[..k]);
       i < |s.runs| && s.runs[i].pc.Resolving? && NoDict(s, s.runs[i].spec, events[k].o.pick)
  }

  /** The row picked is one the view may show, and `dict` raises on its payload. */
  ghost predicate NoDict(s: State, spec: Spec, pick: nat) {
    spec.source.Snapshot? && IsLatest(s.published, spec.key, pick)
    && !s.published[pick].payload.Obj? && s.published[pick].payload != Arr([])
  }

  ghost predicate MetNoDict(seed: seq<PublishedRow>, events: seq<Event>, i: nat) {
    exists k :: NoDictAt(seed, events, i, k)
  }

  lemma MetNoDictAfter(seed: seq<PublishedRow>, events: seq<Event>, i: nat)
    requires events != []
    ensures var n := |events| - 1;
      MetNoDict(seed, events, i) <==> MetNoDict(seed, events[..n], i) || NoDictAt(seed, events, i, n)
  {
    var n := |events| - 1;
    var before := events[..n];
    forall k | 0 <= k < n ensures NoDictAt(seed, events, i, k) <==> NoDictAt(seed, before, i, k) {
      assert before[..k] == events[..k];
    }
    if MetNoDict(seed, before, i) {
      var k :| NoDictAt(seed, before, i, k);
      assert NoDictAt(seed, events, i, k);
    }
  }

  /** An assertion with an empty name raises on what the invocation read. */
  predicate Unreportable(r: Run) {
    r.staged.Some? && r.reference.Some? && RunAll(r.spec.assertions, r.staged.value.payload, r.reference.value).None?
  }

  predicate Rejected(spec: Spec) {
    spec.assertions == [] || !ValidRunId(spec.runId)
  }

  /** An invocation without faults so far: `run` has raised exactly for one of three reasons, and
      if it returned it is audited exactly when Postgres casts its run_id. */
  ghost predicate QuietSoFar(r: Run, metNoDict: bool) {
    && (r.pc.Escaped? ==> r.pc == Escaped(None) && (Rejected(r.spec) || metNoDict || Unreportable(r)))
    && (Rejected(r.spec) || metNoDict ==> r.pc.Escaped?)
    && (Unreportable(r) ==> r.pc.Asserting? || r.pc.Escaped?)
    && (r.pc.Returned? ==> r.pc.audited == r.spec.castable)
  }

  predicate Preparing(pc: Pc) {
    pc.Staging? || pc.StagingCommit? || pc.ReadBack? || pc.Resolving? || pc.Asserting?
  }

  lemma QuietStaging(s: State, i: nat, o: Oracle)
    requires i < |s.runs| && PcOk(s.runs[i]) && StepOf(s, i, o).Next? && o.fault.NoFault?
    requires var pc := s.runs[i].pc; pc.Staging? || pc.StagingCommit? || pc.ReadBack?
    ensures var q := StepOf(s, i, o).run; !Finished(q.pc) && !Unreportable(q) && !s.runs[i].pc.Resolving?
  {
  }

  lemma QuietResolving(s: State, i: nat, o: Oracle)
    requires i < |s.runs| && PcOk(s.runs[i]) && StepOf(s, i, o).Next? && o.fault.NoFault? && s.runs[i].pc.Resolving?
    ensures var q := StepOf(s, i, o).run;
      && !q.pc.Returned?
      && (q.pc.Escaped? <==> NoDict(s, s.runs[i].spec, o.pick)) && (q.pc.Escaped? ==> q.pc == Escaped(None))
      && (Unreportable(q) ==> q.pc.Asserting?)
  {
  }

  lemma QuietAsserting(s: State, i: nat, o: Oracle)
    requires i < |s.runs| && StepOf(s, i, o).Next? && o.fault.NoFault? && s.runs[i].pc.Asserting?
    ensures var q := StepOf(s, i, o).run;
      && !q.pc.Returned? && (q.pc.Escaped? <==> Unreportable(q)) && (q.pc.Escaped? ==> q.pc == Escaped(None))
  {
  }

  lemma QuietOutcome(s: State, i: nat, o: Oracle)
    requires i < |s.runs| && PcOk(s.runs[i]) && StepOf(s, i, o).Next? && o.fault.NoFault?
    requires !Preparing(s.runs[i].pc)
    ensures var r, q := s.runs[i], StepOf(s, i, o).run;
      && !q.pc.Escaped? && q.staged == r.staged && q.reference == r.reference
      && (q.pc.Returned? ==> q.pc.audited == q.spec.castable)
  {
  }

  lemma QuietStep(s: State, i: nat, o: Oracle, met: bool)
    requires Inv(s) && i < |s.runs| && o.fault.NoFault? && QuietSoFar(s.runs[i], met)
    ensures var now := s.runs[i].pc.Resolving? && NoDict(s, s.runs[i].spec, o.pick);
      QuietSoFar(Apply(s, Step(i, o)).runs[i], met || now)
  {
    var r := s.runs[i];
    assert RunOk(s, i) && PcOk(r);
    if StepOf(s, i, o).Next? {
      StepKeepsSpec(s, i, o);
      match r.pc
      case Staging | StagingCommit | ReadBack => QuietStaging(s, i, o);
      case Resolving => QuietResolving(s, i, o);
      case Asserting => QuietAsserting(s, i, o);
      case _ => QuietOutcome(s, i, o);
    } else if r.pc.Resolving? {
      NoDictMoves(s, i, o);
    }
  }

  lemma NoDictMoves(s: State, i: nat, o: Oracle)
    requires i < |s.runs| && o.fault.NoFault? && s.runs[i].pc.Resolving?
    ensures NoDict(s, s.runs[i].spec, o.pick) ==> StepOf(s, i, o).Next?
  {
    assert o.pick < |s.published| ==> s.published[o.pick] in s.published;
  }

  lemma {:induction false} NotYetMet(seed: seq<PublishedRow>, events: seq<Event>, i: nat)
    requires |Exec(Init(seed), events).runs| <= i
    ensures !MetNoDict(seed, events, i)
  {
    if events != [] {
      var n := |events| - 1;
      ApplyKeepsSpecs(Exec(Init(seed), events[..n]), events[n]);
      NotYetMet(seed, events[..n], i);
      MetNoDictAfter(seed, events, i);
    }
  }

  lemma {:induction false} FaultFreeSoFar(seed: seq<PublishedRow>, events: seq<Event>, i: nat)
    requires ValidSeed(seed) && FaultFree(seed, events, i) && i < |Exec(Init(seed), events).runs|
    ensures QuietSoFar(Exec(Init(seed), events).runs[i], MetNoDict(seed, events, i))
  {
    if events != [] {
      var n := |events| - 1;
      var s, e := Exec(Init(seed), events[..n]), events[n];
      MetNoDictAfter(seed, events, i);
      if i >= |s.runs| {
        NotYetMet(seed, events[..n], i);
      } else {
        FaultFreeSoFar(seed, events[..n], i);
        if e.Step? && e.i == i {
          ReachableInv(seed, events[..n]);
          QuietStep(s, i, e.o, MetNoDict(seed, events[..n], i));
        }
      }
    }
  }

  /** An invocation that meets no fault of its own, whatever the others do. Its `run` raises if and
      only if the assertion list is empty, the writer factory rejects the run_id, the snapshot it
      resolves is no dict, or an assertion with an empty name raises; and it has its one audit row if
      and only if it returned and Postgres casts its run_id. */
  lemma FaultFreeRunsAreAudited(seed: seq<PublishedRow>, events: seq<Event>, i: nat)
    requires ValidSeed(seed) && FaultFree(seed, events, i)
    requires i < |Exec(Init(seed), events).runs| && Finished(Exec(Init(seed), events).runs[i].pc)
    ensures var s := Exec(Init(seed), events); var r := s.runs[i];
      && (r.pc.Escaped? <==> Rejected(r.spec) || MetNoDict(seed, events, i) || Unreportable(r))
      && AuditBy(s.audit, i) == (if r.pc.Returned? && r.spec.castable then [AuditRowOf(i, r, r.pc.status)] else [])
  {
    FaultFreeSoFar(seed, events, i);
    AuditAccounting(seed, events, i);
  }
}
