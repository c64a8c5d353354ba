/** What the environment decides during one invocation, given in advance: for each of its statements
    the events that happen before it, and the oracle the statement meets. */
module Scripts {
  import opened Wrappers
  import opened Models
  import opened StagingRef
  import opened Protocol
  import opened Snapshots
  import opened Traces

  datatype Turn = Turn(others: seq<Event>, oracle: Oracle)

  /** A turn for the statement at each program counter; an invocation is at each at most once. */
  type Script = Pc -> Turn

  predicate Mine(e: Event, me: nat) {
    e.Step? && e.i == me
  }

  /** The events that are not steps of the invocation itself. */
  function Others(events: seq<Event>, me: nat): seq<Event> {
    if events == [] then []
    else
      var last := events[|events| - 1];
      Others(events[..|events| - 1], me) + (if Mine(last, me) then [] else [last])
  }

  /** The oracle as the statement meets it: a row the view does not show gives way to one it shows,
      and a wait for another transaction that has not ended by then ends as a database error. */
  ghost function Met(s: State, me: nat, o: Oracle): Oracle
    requires me < |s.runs|
  {
    if StepOf(s, me, o).Next? || Finished(s.runs[me].pc) then o
    else if s.runs[me].pc.Resolving? then
      var k := Latest(s.published, s.runs[me].spec.key);
      if k.Some? then o.(pick := k.value) else o
    else o.(fault := DbError)
  }

  /** One statement: the other events, then the step. */
  ghost function PlayTurn(seed: seq<PublishedRow>, t: seq<Event>, me: nat, script: Script): seq<Event> {
    var s := Exec(Init(seed), t);
    if me >= |s.runs| then t
    else
      var turn := script(s.runs[me].pc);
      var u := t + Others(turn.others, me);
      var now := Exec(Init(seed), u);
      if me >= |now.runs| then u else u + [Step(me, Met(now, me, turn.oracle))]
  }

  ghost function NextTurn(seed: seq<PublishedRow>, me: nat, script: Script): seq<Event> -> seq<Event> {
    t => PlayTurn(seed, t, me, script)
  }

  ghost function Iterate(f: seq<Event> -> seq<Event>, t: seq<Event>, n: nat): seq<Event> {
    if n == 0 then t else f(Iterate(f, t, n - 1))
  }

  ghost predicate Iterates(f: seq<Event> -> seq<Event>, from: seq<Event>, t: seq<Event>) {
    exists n: nat :: t == Iterate(f, from, n)
  }

  lemma IterateStart(f: seq<Event> -> seq<Event>, from: seq<Event>)
    ensures Iterates(f, from, from)
  {
    assert from == Iterate(f, from, 0);
  }

  lemma IterateNext(f: seq<Event> -> seq<Event>, from: seq<Event>, t: seq<Event>)
    requires Iterates(f, from, t)
    ensures Iterates(f, from, f(t))
  {
    var n: nat :| t == Iterate(f, from, n);
    assert f(t) == Iterate(f, from, n + 1);
  }

  lemma {:induction false} IteratedKeeps(keeps: seq<Event> -> bool, f: seq<Event> -> seq<Event>, t: seq<Event>, n: nat)
    requires keeps(t) && forall u :: keeps(u) ==> keeps(f(u))
    ensures keeps(Iterate(f, t, n))
  {
    if n > 0 {
      IteratedKeeps(keeps, f, t, n - 1);
    }
  }

  /** What every turn keeps, any number of turns keeps. */
  lemma Iterated(keeps: seq<Event> -> bool, f: seq<Event> -> seq<Event>, from: seq<Event>, t: seq<Event>)
    requires keeps(from) && Iterates(f, from, t) && forall u :: keeps(u) ==> keeps(f(u))
    ensures keeps(t)
  {
    var n: nat :| t == Iterate(f, from, n);
    IteratedKeeps(keeps, f, from, n);
  }

  /** What has happened is what the script makes of some number of statements. */
  ghost predicate Played(seed: seq<PublishedRow>, from: seq<Event>, me: nat, script: Script, t: seq<Event>) {
    Iterates(NextTurn(seed, me, script), from, t)
  }

  /** The same, and the other events of the next turn as well. */
  ghost predicate Awaited(seed: seq<PublishedRow>, from: seq<Event>, me: nat, script: Script, u: seq<Event>, pc: Pc) {
    exists t :: Played(seed, from, me, script, t) && TurnOf(seed, t, me, script, u, pc)
  }

  ghost predicate TurnOf(seed: seq<PublishedRow>, t: seq<Event>, me: nat, script: Script, u: seq<Event>, pc: Pc) {
    && me < |Exec(Init(seed), t).runs| && Exec(Init(seed), t).runs[me].pc == pc
    && u == t + Others(script(pc).others, me)
  }

  lemma PlayedStart(seed: seq<PublishedRow>, from: seq<Event>, me: nat, script: Script)
    ensures Played(seed, from, me, script, from)
  {
    IterateStart(NextTurn(seed, me, script), from);
  }

  lemma PlayedNext(seed: seq<PublishedRow>, from: seq<Event>, me: nat, script: Script, t: seq<Event>)
    requires Played(seed, from, me, script, t)
    ensures Played(seed, from, me, script, PlayTurn(seed, t, me, script))
  {
    IterateNext(NextTurn(seed, me, script), from, t);
  }

  lemma OthersBegin(seed: seq<PublishedRow>, from: seq<Event>, me: nat, script: Script, t: seq<Event>, u: seq<Event>)
    requires Played(seed, from, me, script, t) && me < |Exec(Init(seed), t).runs|
    requires u == t + Others(script(Exec(Init(seed), t).runs[me].pc).others, me)
    ensures Awaited(seed, from, me, script, u, Exec(Init(seed), t).runs[me].pc)
  {
    assert TurnOf(seed, t, me, script, u, Exec(Init(seed), t).runs[me].pc);
  }

  /** The step that the script allows ends the turn. */
  lemma TurnEnds(seed: seq<PublishedRow>, from: seq<Event>, me: nat, script: Script, u: seq<Event>, pc: Pc)
    requires Awaited(seed, from, me, script, u, pc) && me < |Exec(Init(seed), u).runs|
    ensures Played(seed, from, me, script, u + [Step(me, Met(Exec(Init(seed), u), me, script(pc).oracle))])
  {
    var t :| Played(seed, from, me, script, t) && TurnOf(seed, t, me, script, u, pc);
    PlayedNext(seed, from, me, script, t);
  }

  // ---------------------------------------------------------------- other events

  lemma OthersSnoc(events: seq<Event>, e: Event, me: nat)
    ensures Others(events + [e], me) == Others(events, me) + (if Mine(e, me) then [] else [e])
  {
    assert (events + [e])[..|events|] == events;
  }

  /** What has happened once the first k events have, but for the invocation's own. */
  function After(begun: seq<Event>, others: seq<Event>, k: nat, me: nat): seq<Event>
    requires k <= |others|
  {
    begun + Others(others[..k], me)
  }

  lemma OthersAt(begun: seq<Event>, others: seq<Event>, k: nat, me: nat)
    requires k <= |others|
    ensures k == 0 ==> After(begun, others, k, me) == begun
    ensures k < |others| ==>
      After(begun, others, k + 1, me) == After(begun, others, k, me) + (if Mine(others[k], me) then [] else [others[k]])
    ensures k == |others| ==> After(begun, others, k, me) == begun + Others(others, me)
  {
    if k < |others| {
      assert others[..k + 1] == others[..k] + [others[k]];
      OthersSnoc(others[..k], others[k], me);
    } else {
      assert others[..k] == others;
    }
  }

  /** Events of others leave the invocation as it is. */
  lemma ApplyKeepsOthers(s: State, e: Event, me: nat)
    requires me < |s.runs| && !Mine(e, me)
    ensures me < |Apply(s, e).runs| && Apply(s, e).runs[me] == s.runs[me]
  {
  }

  lemma {:induction false} OthersKeepRun(s: State, events: seq<Event>, me: nat)
    requires me < |s.runs|
    ensures me < |Exec(s, Others(events, me)).runs| && Exec(s, Others(events, me)).runs[me] == s.runs[me]
  {
    if events != [] {
      var n := |events| - 1;
      var before := Others(events[..n], me);
      OthersKeepRun(s, events[..n], me);
      if Mine(events[n], me) {
        assert before + [] == before;
      } else {
        ExecAppend(s, before, events[n]);
        ApplyKeepsOthers(Exec(s, before), events[n], me);
      }
    }
  }

  lemma {:induction false} OthersAreFrom(events: seq<Event>, me: nat)
    ensures forall e :: e in Others(events, me) ==> e in events && !Mine(e, me)
  {
    if events != [] {
      var n := |events| - 1;
      OthersAreFrom(events[..n], me);
      assert events == events[..n] + [events[n]];
    }
  }

  /** One turn, seen from the invocation: nothing of it changes before its step. */
  lemma TurnIsStep(seed: seq<PublishedRow>, t: seq<Event>, me: nat, script: Script)
    requires me < |Exec(Init(seed), t).runs|
    ensures var r := Exec(Init(seed), t).runs[me];
      var u := t + Others(script(r.pc).others, me);
      var now := Exec(Init(seed), u);
      && me < |now.runs| && now.runs[me] == r
      && PlayTurn(seed, t, me, script) == u + [Step(me, Met(now, me, script(r.pc).oracle))]
      && Exec(Init(seed), PlayTurn(seed, t, me, script)) == Apply(now, Step(me, Met(now, me, script(r.pc).oracle)))
  {
    var s := Exec(Init(seed), t);
    var turn := script(s.runs[me].pc);
    var u := t + Others(turn.others, me);
    ExecConcat(Init(seed), t, Others(turn.others, me));
    OthersKeepRun(s, turn.others, me);
    var now := Exec(Init(seed), u);
    ExecAppend(Init(seed), u, Step(me, Met(now, me, turn.oracle)));
  }

  /** Meeting the oracle changes at most its fault and its pick. */
  lemma MetKeeps(s: State, me: nat, o: Oracle)
    requires me < |s.runs|
    ensures var m := Met(s, me, o);
      m.now == o.now && m.ackLost == o.ackLost && m.external == o.external
      && (m.fault == o.fault || (m.fault.DbError? && StepOf(s, me, o).Blocked?))
  {
  }

  // ---------------------------------------------------------------- what each statement makes of its oracle

  /** The statement of the invocation, meeting o, moves it to r. */
  ghost predicate Moves(s: State, me: nat, o: Oracle, r: Run, commits: bool)
    requires me < |s.runs|
  {
    StepOf(s, me, Met(s, me, o)) == Next(r, commits)
  }

  lemma StagingTurn(s: State, me: nat, o: Oracle)
    requires me < |s.runs| && s.runs[me].pc.Staging?
    ensures var r := s.runs[me]; var row := StagedRowOf(me, r.spec);
      if o.fault.Killed? then Moves(s, me, o, Escape(r, None), false)
      else if !r.spec.Stageable() then Moves(s, me, o, Fail(r, WriteFailed, o.now), false)
      else if o.fault.OtherError? then Moves(s, me, o, Escape(r, None), false)
      else if o.fault.DbError? || !r.spec.castable || StagedTaken(s, row) || StagedHeld(s, me, row)
      then Moves(s, me, o, Fail(r, WriteFailed, o.now), false)
      else Moves(s, me, o, r.(pc := StagingCommit, txn := NO_TXN.(staged := Some(row))), false)
  {
  }

  lemma StagingCommitTurn(s: State, me: nat, o: Oracle)
    requires me < |s.runs| && s.runs[me].pc.StagingCommit?
    ensures var r := s.runs[me];
      match o.fault
      case NoFault => Moves(s, me, o, r.(pc := ReadBack, landed := true, txn := NO_TXN), true)
      case DbError => Moves(s, me, o, Fail(r.(landed := r.landed || o.ackLost), WriteFailed, o.now), o.ackLost)
      case _ => Moves(s, me, o, Escape(r.(landed := r.landed || o.ackLost), None), o.ackLost)
  {
  }

  lemma ReadBackTurn(s: State, me: nat, o: Oracle)
    requires me < |s.runs| && s.runs[me].pc.ReadBack?
    ensures var r := s.runs[me];
      if o.fault.Killed? then Moves(s, me, o, Escape(r, None), false)
      else if !RefRunId(r.spec.runId) then Moves(s, me, o, Fail(r, ReadBackFailed, o.now), false)
      else if o.fault.OtherError? then Moves(s, me, o, Escape(r, None), false)
      else if o.fault.DbError? || r.spec.ref !in s.staging then Moves(s, me, o, Fail(r, ReadBackFailed, o.now), false)
      else Moves(s, me, o, r.(pc := Resolving, staged := Some(s.staging[r.spec.ref])), false)
  {
  }

  lemma ResolvingTurn(s: State, me: nat, o: Oracle)
    requires me < |s.runs| && s.runs[me].pc.Resolving?
    ensures var r := s.runs[me];
      if o.fault.Killed? || o.fault.OtherError? then Moves(s, me, o, Escape(r, None), false)
      else if o.fault.DbError? then Moves(s, me, o, Fail(r, ReferenceFailed, o.now), false)
      else if r.spec.source.External? then Moves(s, me, o, r.(pc := Asserting, reference := Some(o.external)), false)
      else if !HasRows(s.published, r.spec.key) then Moves(s, me, o, Fail(r, ReferenceFailed, o.now), false)
      else
        var k := if IsLatest(s.published, r.spec.key, o.pick) then o.pick else Latest(s.published, r.spec.key).value;
        match AsDict(s.published[k].payload)
        case None => Moves(s, me, o, Escape(r, None), false)
        case Some(dict) => Moves(s, me, o, r.(pc := Asserting, snapshot := Some(k), reference := Some(dict)), false)
  {
  }

  lemma AssertingTurn(s: State, me: nat, o: Oracle)
    requires me < |s.runs| && s.runs[me].pc.Asserting? && s.runs[me].staged.Some? && s.runs[me].reference.Some?
    ensures var r := s.runs[me]; var results := RunAll(r.spec.assertions, r.staged.value.payload, r.reference.value);
      if o.fault.Killed? || results.None? then Moves(s, me, o, Escape(r, None), false)
      else
        var report := Report(r.spec.runId, results.value);
        Moves(s, me, o, r.(report := Some(report), stamp := o.now,
                           pc := if report.AllPassed() then PublishRead else RouteQueue), false)
  {
  }

  lemma PublishReadTurn(s: State, me: nat, o: Oracle)
    requires me < |s.runs| && s.runs[me].pc.PublishRead?
    ensures var r := s.runs[me]; var ref := r.spec.ref;
      if !o.fault.NoFault? then Moves(s, me, o, Escape(r, None), false)
      else if ref !in s.staging then Moves(s, me, o, Fail(r, PublishRefused, o.now), false)
      else Moves(s, me, o, r.(pc := PublishInsert, promoted := Some(s.staging[ref]), txn := NO_TXN.(lock := Some(ref))), false)
  {
  }

  lemma PublishInsertTurn(s: State, me: nat, o: Oracle)
    requires me < |s.runs| && s.runs[me].pc.PublishInsert?
    ensures var r := s.runs[me]; var row := PublishedRowOf(me, r);
      if !o.fault.NoFault? then Moves(s, me, o, Escape(r, None), false)
      else if PublishedTaken(s, row) then Moves(s, me, o, Fail(r, PublishRefused, o.now), false)
      else if PublishedHeld(s, me, row) then Moves(s, me, o, Escape(r, None), false)
      else Moves(s, me, o, r.(pc := PublishAudit, txn := r.txn.(published := Some(row))), false)
  {
  }

  lemma PublishAuditTurn(s: State, me: nat, o: Oracle)
    requires me < |s.runs| && s.runs[me].pc.PublishAudit?
    ensures var r := s.runs[me];
      if !o.fault.NoFault? then Moves(s, me, o, Escape(r, None), false)
      else Moves(s, me, o, r.(pc := PublishCommit, txn := r.txn.(audit := Some(AuditRowOf(me, r, Published)))), false)
  {
  }

  lemma RouteQueueTurn(s: State, me: nat, o: Oracle)
    requires me < |s.runs| && s.runs[me].pc.RouteQueue?
    ensures var r := s.runs[me]; var row := QueueRowOf(me, r);
      if !o.fault.NoFault? then Moves(s, me, o, Escape(r, None), false)
      else if QueueTaken(s, row) then Moves(s, me, o, Fail(r, RoutingRefused, o.now), false)
      else if QueueHeld(s, me, row) then Moves(s, me, o, Escape(r, None), false)
      else Moves(s, me, o, r.(pc := RouteAudit, txn := NO_TXN.(queued := Some(row))), false)
  {
  }

  lemma RouteAuditTurn(s: State, me: nat, o: Oracle)
    requires me < |s.runs| && s.runs[me].pc.RouteAudit?
    ensures var r := s.runs[me];
      if !o.fault.NoFault? then Moves(s, me, o, Escape(r, None), false)
      else Moves(s, me, o, r.(pc := RouteCommit, txn := r.txn.(audit := Some(AuditRowOf(me, r, RoutedToReview)))), false)
  {
  }

  lemma OutcomeCommitTurn(s: State, me: nat, o: Oracle, status: RunStatus)
    requires me < |s.runs| && !status.Errored?
    requires s.runs[me].pc == match status case Published => PublishCommit case _ => RouteCommit
    ensures var r := s.runs[me];
      if o.fault.NoFault? then Moves(s, me, o, r.(pc := Returned(status, true), txn := NO_TXN), true)
      else Moves(s, me, o, Escape(r, if o.ackLost then Some(status) else None), o.ackLost)
  {
  }

  lemma ErrorAuditTurn(s: State, me: nat, o: Oracle)
    requires me < |s.runs| && s.runs[me].pc.ErrorAudit?
    ensures var r := s.runs[me];
      if o.fault.Killed? then Moves(s, me, o, Escape(r, None), false)
      else if !o.fault.NoFault? || !r.spec.castable then Moves(s, me, o, r.(pc := Returned(RunStatus.Errored, false)), false)
      else Moves(s, me, o, r.(pc := ErrorCommit, txn := NO_TXN.(audit := Some(AuditRowOf(me, r, RunStatus.Errored)))), false)
  {
  }

  lemma ErrorCommitTurn(s: State, me: nat, o: Oracle)
    requires me < |s.runs| && s.runs[me].pc.ErrorCommit?
    ensures var r := s.runs[me]; var audited := o.fault.NoFault? || o.ackLost;
      if o.fault.Killed?
      then Moves(s, me, o, Escape(r, if audited then Some(RunStatus.Errored) else None), audited)
      else Moves(s, me, o, r.(pc := Returned(RunStatus.Errored, audited), txn := NO_TXN), audited)
  {
  }
}
