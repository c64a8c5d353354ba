/** No deadlock: waiting for another transaction's row always ends. */
module Progress {
  import opened Json
  import opened Protocol
  import opened Invariants
  import opened Snapshots
  import opened Traces

  /** How many more statements an invocation can execute at most. */
  function Rank(pc: Pc): nat {
    match pc
    case Staging => 13
    case StagingCommit => 12
    case ReadBack => 11
    case Resolving => 10
    case Asserting => 9
    case PublishRead => 8
    case PublishInsert => 7
    case PublishAudit => 6
    case PublishCommit => 5
    case RouteQueue => 7
    case RouteAudit => 6
    case RouteCommit => 5
    case ErrorAudit => 2
    case ErrorCommit => 1
    case _ => 0
  }

  function Remaining(runs: seq<Run>): nat {
    if runs == [] then 0 else Remaining(runs[..|runs| - 1]) + Rank(runs[|runs| - 1].pc)
  }

  lemma {:induction false} RemainingDrops(runs: seq<Run>, i: nat, r: Run)
    requires i < |runs| && Rank(r.pc) < Rank(runs[i].pc)
    ensures Remaining(runs[i := r]) < Remaining(runs)
  {
    var n := |runs| - 1;
    if i == n {
      assert runs[i := r][..n] == runs[..n];
    } else {
      assert runs[i := r][..n] == runs[..n][i := r];
      RemainingDrops(runs[..n], i, r);
    }
  }

  lemma EarlyStepLowersRank(s: State, i: nat, o: Oracle)
    requires i < |s.runs| && StepOf(s, i, o).Next? && Rank(s.runs[i].pc) >= 9
    ensures Rank(StepOf(s, i, o).run.pc) < Rank(s.runs[i].pc)
  {
  }

  lemma LateStepLowersRank(s: State, i: nat, o: Oracle)
    requires i < |s.runs| && StepOf(s, i, o).Next? && Rank(s.runs[i].pc) <= 8
    ensures Rank(StepOf(s, i, o).run.pc) < Rank(s.runs[i].pc)
  {
  }

  lemma StepLowersRank(s: State, i: nat, o: Oracle)
    requires i < |s.runs| && StepOf(s, i, o).Next?
    ensures Rank(StepOf(s, i, o).run.pc) < Rank(s.runs[i].pc)
  {
    if Rank(s.runs[i].pc) >= 9 {
      EarlyStepLowersRank(s, i, o);
    } else {
      LateStepLowersRank(s, i, o);
    }
  }

  /** A fault-free oracle that picks the view's row. */
  function Quiet(s: State, i: nat): Oracle
    requires i < |s.runs|
  {
    var k := Latest(s.published, s.runs[i].spec.key);
    Oracle(NoFault, false, 0, if k.Some? then k.value else 0, Null)
  }

  /** A pending row is held between its insert and its commit, where no statement waits. */
  predicate HoldsRow(pc: Pc) {
    pc.StagingCommit? || pc.PublishAudit? || pc.PublishCommit? || pc.RouteAudit? || pc.RouteCommit?
  }

  lemma HolderCanMove(s: State, j: nat)
    requires j < |s.runs| && HoldsRow(s.runs[j].pc)
    ensures StepOf(s, j, Quiet(s, j)).Next?
  {
  }

  /** Only an insert waits. */
  lemma OnlyInsertsWait(s: State, i: nat)
    requires i < |s.runs| && PcOk(s.runs[i]) && !Finished(s.runs[i].pc) && StepOf(s, i, Quiet(s, i)).Blocked?
    ensures match s.runs[i].pc
            case Staging => StagedHeld(s, i, StagedRowOf(i, s.runs[i].spec))
            case PublishInsert => PublishedHeld(s, i, PublishedRowOf(i, s.runs[i]))
            case RouteQueue => QueueHeld(s, i, QueueRowOf(i, s.runs[i]))
            case _ => false
  {
  }

  /** The insert of i waits for the uncommitted row of j that it conflicts with. */
  predicate WaitsFor(s: State, i: nat, j: nat)
    requires i < |s.runs|
  {
    && j < |s.runs| && j != i
    && var r, held := s.runs[i], s.runs[j].txn;
    match r.pc
    case Staging => held.staged.Some? && SameStaged(held.staged.value, StagedRowOf(i, r.spec))
    case PublishInsert => held.published.Some? && SamePublished(held.published.value, PublishedRowOf(i, r))
    case RouteQueue => held.queued.Some? && held.queued.value.uuid == QueueRowOf(i, r).uuid
    case _ => false
  }

  /** What an insert waits for is a row another invocation holds. */
  lemma HolderOf(s: State, i: nat) returns (j: nat)
    requires Inv(s) && i < |s.runs| && !Finished(s.runs[i].pc) && StepOf(s, i, Quiet(s, i)).Blocked?
    ensures WaitsFor(s, i, j)
  {
    assert RunOk(s, i);
    OnlyInsertsWait(s, i);
    var r := s.runs[i];
    match r.pc
    case Staging =>
      j :| 0 <= j < |s.runs| && j != i && s.runs[j].txn.staged.Some?
        && SameStaged(s.runs[j].txn.staged.value, StagedRowOf(i, r.spec));
    case PublishInsert =>
      j :| 0 <= j < |s.runs| && j != i && s.runs[j].txn.published.Some?
        && SamePublished(s.runs[j].txn.published.value, PublishedRowOf(i, r));
    case RouteQueue =>
      j :| 0 <= j < |s.runs| && j != i && s.runs[j].txn.queued.Some?
        && s.runs[j].txn.queued.value.uuid == QueueRowOf(i, r).uuid;
  }

  lemma HolderHolds(s: State, i: nat, j: nat)
    requires Inv(s) && i < |s.runs| && WaitsFor(s, i, j)
    ensures HoldsRow(s.runs[j].pc)
  {
    assert RunOk(s, j);
  }

  /** An unfinished invocation can move, or its insert waits for a row of one that can. */
  lemma SomeoneCanMove(s: State, i: nat) returns (j: nat)
    requires Inv(s) && i < |s.runs| && !Finished(s.runs[i].pc)
    ensures j < |s.runs| && StepOf(s, j, Quiet(s, j)).Next?
    ensures if StepOf(s, i, Quiet(s, i)).Next? then j == i else WaitsFor(s, i, j)
  {
    if StepOf(s, i, Quiet(s, i)).Next? {
      j := i;
    } else {
      j := HolderOf(s, i);
      HolderHolds(s, i, j);
      HolderCanMove(s, j);
    }
  }

  lemma ExecThen(s: State, e: Event, events: seq<Event>)
    ensures Exec(s, [e] + events) == Exec(Apply(s, e), events)
  {
    ExecAppend(s, [], e);
    assert [] + [e] == [e];
    ExecConcat(s, [e], events);
  }

  predicate QuietStep(e: Event) {
    e.Step? && e.o.fault.NoFault?
  }

  /** From every reachable state, however many faults came before, the invocations that are still
      running can all be driven to their end by fault-free steps alone: nothing waits forever. */
  lemma {:induction false} EveryRunCanFinish(s: State) returns (events: seq<Event>)
    requires Inv(s)
    ensures forall e <- events :: QuietStep(e)
    ensures |Exec(s, events).runs| == |s.runs|
    ensures forall r <- Exec(s, events).runs :: Finished(r.pc)
    decreases Remaining(s.runs)
  {
    if forall r <- s.runs :: Finished(r.pc) {
      events := [];
    } else {
      var i :| 0 <= i < |s.runs| && !Finished(s.runs[i].pc);
      var j := SomeoneCanMove(s, i);
      var o := Quiet(s, j);
      var t := Apply(s, Step(j, o));
      StepTables(s, j, o);
      StepLowersRank(s, j, o);
      RemainingDrops(s.runs, j, StepOf(s, j, o).run);
      ApplyKeepsInv(s, Step(j, o));
      var rest := EveryRunCanFinish(t);
      events := [Step(j, o)] + rest;
      ExecThen(s, Step(j, o), rest);
    }
  }
}
