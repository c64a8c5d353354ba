/** What an invocation that meets no fault comes to while any others run beside it. */
module Completion {
  import opened Wrappers
  import opened Models
  import opened StagingRef
  import opened Protocol
  import opened Invariants
  import opened Evidence
  import opened Snapshots
  import opened Outcomes
  import opened Accounting
  import opened Causes
  import opened Traces
  import opened Scripts

  // ---------------------------------------------------------------- no conflicts

  /** No other invocation, and no seed record, has the run_id; no seed record has the published_ref. */
  ghost predicate Unconflicted(seed: seq<PublishedRow>, s: State, i: nat) {
    && i < |s.runs|
    && (forall j | 0 <= j < |s.runs| && j != i :: s.runs[j].spec.uuid != s.runs[i].spec.uuid)
    && (forall p <- seed :: p.uuid != s.runs[i].spec.uuid && p.ref != s.runs[i].spec.publishedRef)
  }

  lemma UnconflictedBefore(seed: seq<PublishedRow>, s: State, t: State, i: nat)
    requires SpecsKept(s, t) && i < |s.runs| && Unconflicted(seed, t, i)
    ensures Unconflicted(seed, s, i)
  {
    forall j | 0 <= j < |s.runs| && j != i ensures s.runs[j].spec.uuid != s.runs[i].spec.uuid {
      assert t.runs[j].spec.uuid != t.runs[i].spec.uuid;
    }
  }

  /** Another run with the same staging_ref or published_ref would have the same run_id. */
  lemma OtherNames(seed: seq<PublishedRow>, s: State, i: nat, j: nat)
    requires NamesOk(s) && Unconflicted(seed, s, i) && j < |s.runs| && j != i
    requires s.runs[i].spec.Stageable() && s.runs[j].spec.Stageable()
    ensures s.runs[j].spec.ref != s.runs[i].spec.ref && s.runs[j].spec.publishedRef != s.runs[i].spec.publishedRef
    ensures s.runs[j].spec.uuid != s.runs[i].spec.uuid
  {
    NamesAreInjective(s.runs[i].spec, s.runs[j].spec);
  }

  lemma NotStagedTaken(seed: seq<PublishedRow>, s: State, i: nat)
    requires Inv(s) && NamesOk(s) && Unconflicted(seed, s, i) && s.runs[i].spec.Stageable() && !s.runs[i].landed
    ensures !StagedTaken(s, StagedRowOf(i, s.runs[i].spec))
  {
    forall ref <- s.staging ensures !SameStaged(s.staging[ref], StagedRowOf(i, s.runs[i].spec)) {
      var j := s.staging[ref].writer;
      assert Authentic(s, ref, s.staging[ref]) && RunOk(s, j) && PcOk(s.runs[j]);
      OtherNames(seed, s, i, j);
    }
  }

  lemma NotPublishedTaken(seed: seq<PublishedRow>, events: seq<Event>, i: nat)
    requires ValidSeed(seed) && Unconflicted(seed, Exec(Init(seed), events), i)
    requires var r := Exec(Init(seed), events).runs[i]; r.spec.Stageable() && Committed(r).None?
    ensures var s := Exec(Init(seed), events); !PublishedTaken(s, PublishedRowOf(i, s.runs[i]))
  {
    var s := Exec(Init(seed), events);
    ReachableMatched(seed, events);
    forall p <- s.published ensures !SamePublished(p, PublishedRowOf(i, s.runs[i])) {
      var k :| 0 <= k < |s.published| && s.published[k] == p;
      if k < |seed| {
        assert seed[k] == p && p in seed;
      } else {
        assert Added(s, |seed|)[k - |seed|] == p;
        AddedIsAnothers(seed, events, i, p);
      }
    }
  }

  lemma AddedIsAnothers(seed: seq<PublishedRow>, events: seq<Event>, i: nat, p: PublishedRow)
    requires ValidSeed(seed) && Unconflicted(seed, Exec(Init(seed), events), i)
    requires var r := Exec(Init(seed), events).runs[i]; r.spec.Stageable() && Committed(r).None?
    requires |seed| <= |Exec(Init(seed), events).published| && p in Added(Exec(Init(seed), events), |seed|)
    ensures !SamePublished(p, PublishedRowOf(i, Exec(Init(seed), events).runs[i]))
  {
    var s := Exec(Init(seed), events);
    ReachableNames(seed, events);
    PublishedOrigin(seed, events, p);
    assert PcOk(s.runs[p.writer]);
    OtherNames(seed, s, i, p.writer);
  }

  lemma NotQueueTaken(seed: seq<PublishedRow>, events: seq<Event>, i: nat)
    requires ValidSeed(seed) && Unconflicted(seed, Exec(Init(seed), events), i)
    requires Committed(Exec(Init(seed), events).runs[i]).None?
    ensures var s := Exec(Init(seed), events); !QueueTaken(s, QueueRowOf(i, s.runs[i]))
  {
    var s := Exec(Init(seed), events);
    forall q <- s.queue ensures q.uuid != QueueRowOf(i, s.runs[i]).uuid {
      QueuedOrigin(seed, events, q);
    }
  }

  /** No statement of an unconflicted invocation waits for another transaction. */
  lemma NothingToWaitFor(seed: seq<PublishedRow>, s: State, i: nat)
    requires Inv(s) && NamesOk(s) && Unconflicted(seed, s, i)
    ensures s.runs[i].spec.Stageable() ==> !StagedHeld(s, i, StagedRowOf(i, s.runs[i].spec))
    ensures s.runs[i].spec.Stageable() ==> !PublishedHeld(s, i, PublishedRowOf(i, s.runs[i]))
    ensures !QueueHeld(s, i, QueueRowOf(i, s.runs[i]))
  {
    forall j | 0 <= j < |s.runs| && j != i
      ensures s.runs[j].txn.staged.Some? && s.runs[i].spec.Stageable() ==>
        !SameStaged(s.runs[j].txn.staged.value, StagedRowOf(i, s.runs[i].spec))
      ensures s.runs[j].txn.published.Some? && s.runs[i].spec.Stageable() ==>
        !SamePublished(s.runs[j].txn.published.value, PublishedRowOf(i, s.runs[i]))
      ensures s.runs[j].txn.queued.Some? ==> s.runs[j].txn.queued.value.uuid != QueueRowOf(i, s.runs[i]).uuid
    {
      assert RunOk(s, j) && PcOk(s.runs[j]);
      if s.runs[i].spec.Stageable() && s.runs[j].spec.Stageable() {
        OtherNames(seed, s, i, j);
      }
    }
  }

  // ---------------------------------------------------------------- on its way

  /** The requirements on a request that are not about the state of the tables. */
  predicate Runnable(spec: Spec) {
    spec.Stageable() && spec.castable && RefRunId(spec.runId)
  }

  /** A reference can be resolved: the source is external, or the dataset has a published record. */
  predicate HasReference(rows: seq<PublishedRow>, spec: Spec) {
    spec.source.External? || HasRows(rows, spec.key)
  }

  /** What the invocation has staged, read and promoted is its own row, and nothing was refused. */
  ghost predicate OnTrack(s: State, i: nat)
    requires i < |s.runs|
  {
    var r := s.runs[i]; var row := StagedRowOf(i, r.spec);
    && (r.landed ==> r.spec.ref in s.staging && s.staging[r.spec.ref] == row)
    && (r.staged.Some? ==> r.staged.value == row)
    && (r.promoted.Some? ==> r.promoted.value == row)
    && r.error.None?
  }

  lemma NothingIsRefused(seed: seq<PublishedRow>, events: seq<Event>, i: nat, o: Oracle)
    requires ValidSeed(seed) && Unconflicted(seed, Exec(Init(seed), events), i) && o.fault.NoFault?
    requires var s := Exec(Init(seed), events);
      OnTrack(s, i) && Runnable(s.runs[i].spec) && HasReference(s.published, s.runs[i].spec)
    ensures !Refuses(Exec(Init(seed), events), i, o)
  {
    var s := Exec(Init(seed), events);
    ReachableInv(seed, events);
    ReachableNames(seed, events);
    assert RunOk(s, i) && PcOk(s.runs[i]);
    match s.runs[i].pc
    case Staging => NotStagedTaken(seed, s, i);
    case PublishInsert => NotPublishedTaken(seed, events, i);
    case RouteQueue => NotQueueTaken(seed, events, i);
    case _ =>
  }

  lemma StepReads(s: State, i: nat, o: Oracle)
    requires i < |s.runs| && StepOf(s, i, o).Next?
    ensures var r, q := s.runs[i], StepOf(s, i, o).run;
      && (q.staged == r.staged || (r.pc.ReadBack? && r.spec.ref in s.staging && q.staged == Some(s.staging[r.spec.ref])))
      && (q.promoted == r.promoted || q.promoted.None?
          || (r.pc.PublishRead? && r.spec.ref in s.staging && q.promoted == Some(s.staging[r.spec.ref])))
  {
  }

  lemma OwnStepOnTrack(seed: seq<PublishedRow>, events: seq<Event>, i: nat, o: Oracle)
    requires ValidSeed(seed) && Unconflicted(seed, Exec(Init(seed), events), i) && o.fault.NoFault?
    requires var s := Exec(Init(seed), events);
      OnTrack(s, i) && Runnable(s.runs[i].spec) && HasReference(s.published, s.runs[i].spec)
    ensures OnTrack(Apply(Exec(Init(seed), events), Step(i, o)), i)
  {
    var s := Exec(Init(seed), events);
    ReachableInv(seed, events);
    assert RunOk(s, i) && PcOk(s.runs[i]);
    NothingIsRefused(seed, events, i, o);
    ErrorStep(s, i, o);
    if StepOf(s, i, o).Next? {
      StepKeepsSpec(s, i, o);
      StepReads(s, i, o);
      StepTables(s, i, o);
      StepLanding(s, i, o);
      FlushedRows(s, i);
    }
  }

  lemma OtherEventOnTrack(seed: seq<PublishedRow>, s: State, e: Event, i: nat)
    requires Inv(s) && NamesOk(s) && Unconflicted(seed, s, i) && OnTrack(s, i) && !Mine(e, i)
    requires !(e.Truncate? && e.ref == s.runs[i].spec.ref)
    ensures i < |Apply(s, e).runs| && OnTrack(Apply(s, e), i)
  {
    ApplyKeepsOthers(s, e, i);
    assert RunOk(s, i) && PcOk(s.runs[i]);
    if s.runs[i].landed && e.Step? && e.i < |s.runs| && StepOf(s, e.i, e.o).Next? {
      StepTables(s, e.i, e.o);
      FlushedRows(s, e.i);
      if s.runs[e.i].txn.staged.Some? {
        OtherNames(seed, s, i, e.i);
      }
    }
  }

  /** No staging row of the ref is deleted from some moment on. */
  ghost predicate RefKept(events: seq<Event>, start: nat, ref: string) {
    forall k | start <= k < |events| :: !(events[k].Truncate? && events[k].ref == ref)
  }

  lemma {:induction false} StaysOnTrack(seed: seq<PublishedRow>, start: nat, events: seq<Event>, i: nat)
    requires ValidSeed(seed) && start <= |events|
    requires var f := Exec(Init(seed), events[..start]);
      i < |f.runs| && f.runs[i].pc.Staging? && Runnable(f.runs[i].spec) && HasReference(f.published, f.runs[i].spec)
    requires Unconflicted(seed, Exec(Init(seed), events), i) && FaultFree(seed, events, i)
    requires RefKept(events, start, Exec(Init(seed), events).runs[i].spec.ref)
    ensures var f, s := Exec(Init(seed), events[..start]), Exec(Init(seed), events);
      OnTrack(s, i) && s.runs[i].spec == f.runs[i].spec && HasReference(s.published, s.runs[i].spec)
  {
    if start == |events| {
      assert events[..start] == events;
      ReachableInv(seed, events);
      var s := Exec(Init(seed), events);
      assert RunOk(s, i) && PcOk(s.runs[i]) && ErrorFits(s.runs[i]);
    } else {
      var n := |events| - 1;
      assert events[..n][..start] == events[..start];
      PrefixKept(seed, events[..n], start);
      ApplyKeepsSpecs(Exec(Init(seed), events[..n]), events[n]);
      UnconflictedBefore(seed, Exec(Init(seed), events[..n]), Exec(Init(seed), events), i);
      StaysOnTrack(seed, start, events[..n], i);
      NextOnTrack(seed, events[..n], events[n], i);
    }
  }

  lemma NextOnTrack(seed: seq<PublishedRow>, before: seq<Event>, e: Event, i: nat)
    requires ValidSeed(seed) && Unconflicted(seed, Exec(Init(seed), before), i)
    requires var s := Exec(Init(seed), before);
      && OnTrack(s, i) && Runnable(s.runs[i].spec) && HasReference(s.published, s.runs[i].spec)
      && !(e.Truncate? && e.ref == s.runs[i].spec.ref)
    requires Mine(e, i) ==> e.o.fault.NoFault?
    ensures var s := Exec(Init(seed), before); var t := Apply(s, e);
      i < |t.runs| && OnTrack(t, i) && HasReference(t.published, s.runs[i].spec)
  {
    var s := Exec(Init(seed), before);
    ApplyKeepsSpecs(s, e);
    if Mine(e, i) {
      OwnStepOnTrack(seed, before, i, e.o);
    } else {
      ReachableInv(seed, before);
      ReachableNames(seed, before);
      OtherEventOnTrack(seed, s, e, i);
    }
    ApplyGrowsPublished(s, e);
    HasReferenceGrows(s.published, Apply(s, e).published, s.runs[i].spec);
  }

  lemma HasReferenceGrows(rows: seq<PublishedRow>, more: seq<PublishedRow>, spec: Spec)
    requires rows <= more && HasReference(rows, spec)
    ensures HasReference(more, spec)
  {
    if HasRows(rows, spec.key) {
      var p :| p in rows && p.key == spec.key;
      assert p in more;
    }
  }

  /** The run comes to the outcome its assertions give on its own data. */
  ghost predicate ConcludesOn(r: Run) {
    && r.report.Some? && r.reference.Some? && r.report.value.runId == r.spec.runId
    && RunAll(r.spec.assertions, r.spec.data, r.reference.value) == Some(r.report.value.results)
    && r.pc == Returned(if r.report.value.AllPassed() then Published else RoutedToReview, true)
    && (r.report.value.AllPassed() ==> r.promoted.Some? && r.promoted.value.payload == r.spec.data)
  }

  /** Completeness beside any other invocations: a request that can be staged and has a reference,
      with a run_id nobody else uses and no deletion of its row, and that meets no fault, is
      published if its assertions all pass on its own data and queued otherwise, whatever the others
      do; unless the snapshot it resolves is no dict or an assertion with an empty name raises. */
  lemma UnconflictedRunConcludes(seed: seq<PublishedRow>, start: nat, events: seq<Event>, i: nat)
    requires ValidSeed(seed) && start <= |events|
    requires var f := Exec(Init(seed), events[..start]);
      i < |f.runs| && f.runs[i].pc.Staging? && Runnable(f.runs[i].spec) && HasReference(f.published, f.runs[i].spec)
    requires Unconflicted(seed, Exec(Init(seed), events), i) && FaultFree(seed, events, i)
    requires RefKept(events, start, Exec(Init(seed), events).runs[i].spec.ref)
    requires Finished(Exec(Init(seed), events).runs[i].pc)
    ensures var r := Exec(Init(seed), events).runs[i];
      if MetNoDict(seed, events, i) || Unreportable(r) then r.pc == Escaped(None) else ConcludesOn(r)
  {
    var s := Exec(Init(seed), events);
    StaysOnTrack(seed, start, events, i);
    FaultFreeSoFar(seed, events, i);
    ReachableInv(seed, events);
    NotRejected(seed, start, events, i);
    assert RunOk(s, i) && PcOk(s.runs[i]) && ReportOk(s.runs[i]);
  }

  /** A run that began staging had assertions and a run_id the writer factory accepts. */
  lemma NotRejected(seed: seq<PublishedRow>, start: nat, events: seq<Event>, i: nat)
    requires ValidSeed(seed) && start <= |events|
    requires var f := Exec(Init(seed), events[..start]); i < |f.runs| && f.runs[i].pc.Staging?
    ensures i < |Exec(Init(seed), events).runs| && !Rejected(Exec(Init(seed), events).runs[i].spec)
  {
    RaisedIffStatementRaised(seed, events[..start], i);
    PrefixKept(seed, events, start);
  }

  // ---------------------------------------------------------------- scripts without faults

  /** No statement meets a fault, and nobody deletes the row of the ref. */
  ghost predicate Undisturbed(script: Script, ref: string) {
    forall pc :: script(pc).oracle.fault.NoFault? && forall e <- script(pc).others :: !(e.Truncate? && e.ref == ref)
  }

  lemma {:induction false} FaultFreeBefore(seed: seq<PublishedRow>, events: seq<Event>, i: nat)
    requires |Exec(Init(seed), events).runs| <= i
    ensures FaultFree(seed, events, i)
  {
    if events != [] {
      var n := |events| - 1;
      ApplyKeepsSpecs(Exec(Init(seed), events[..n]), events[n]);
      FaultFreeBefore(seed, events[..n], i);
    }
  }

  lemma FaultFreeSnoc(seed: seq<PublishedRow>, events: seq<Event>, e: Event, i: nat)
    requires FaultFree(seed, events, i)
    requires Mine(e, i) && i < |Exec(Init(seed), events).runs| ==> e.o.fault.NoFault?
    ensures FaultFree(seed, events + [e], i)
  {
    assert (events + [e])[..|events|] == events;
  }

  lemma {:induction false} FaultFreeOthers(seed: seq<PublishedRow>, t: seq<Event>, others: seq<Event>, i: nat)
    requires FaultFree(seed, t, i)
    ensures FaultFree(seed, t + Others(others, i), i)
  {
    if others == [] {
      assert t + [] == t;
    } else {
      var n := |others| - 1;
      FaultFreeOthers(seed, t, others[..n], i);
      if Mine(others[n], i) {
        assert Others(others, i) == Others(others[..n], i);
      } else {
        assert t + Others(others, i) == (t + Others(others[..n], i)) + [others[n]];
        FaultFreeSnoc(seed, t + Others(others[..n], i), others[n], i);
      }
    }
  }

  /** Nothing to wait for: an unconflicted statement meets the oracle's fault as it is. */
  lemma MetWithoutWait(seed: seq<PublishedRow>, s: State, me: nat, o: Oracle)
    requires Inv(s) && NamesOk(s) && Unconflicted(seed, s, me) && o.fault.NoFault?
    ensures Met(s, me, o).fault.NoFault?
  {
    assert RunOk(s, me) && PcOk(s.runs[me]);
    NothingToWaitFor(seed, s, me);
  }

  lemma TurnKeepsSpecs(seed: seq<PublishedRow>, t: seq<Event>, me: nat, script: Script)
    requires me < |Exec(Init(seed), t).runs|
    ensures var r := Exec(Init(seed), t).runs[me];
      var now := Exec(Init(seed), t + Others(script(r.pc).others, me));
      && me < |now.runs|
      && SpecsKept(Exec(Init(seed), t), Exec(Init(seed), PlayTurn(seed, t, me, script)))
      && SpecsKept(now, Exec(Init(seed), PlayTurn(seed, t, me, script)))
  {
    var s := Exec(Init(seed), t);
    var others := Others(script(s.runs[me].pc).others, me);
    TurnIsStep(seed, t, me, script);
    ExecConcat(Init(seed), t, others);
    ExecKeepsSpecs(s, others);
    var now := Exec(Init(seed), t + others);
    ApplyKeepsSpecs(now, Step(me, Met(now, me, script(s.runs[me].pc).oracle)));
  }

  /** One turn of an unconflicted invocation without a fault in its script. */
  lemma TurnIsFaultFree(seed: seq<PublishedRow>, t: seq<Event>, me: nat, script: Script)
    requires ValidSeed(seed) && FaultFree(seed, t, me) && me < |Exec(Init(seed), t).runs|
    requires forall pc :: script(pc).oracle.fault.NoFault?
    requires Unconflicted(seed, Exec(Init(seed), PlayTurn(seed, t, me, script)), me)
    ensures FaultFree(seed, PlayTurn(seed, t, me, script), me)
  {
    var r := Exec(Init(seed), t).runs[me];
    var u := t + Others(script(r.pc).others, me);
    var now := Exec(Init(seed), u);
    TurnKeepsSpecs(seed, t, me, script);
    TurnIsStep(seed, t, me, script);
    UnconflictedBefore(seed, now, Exec(Init(seed), PlayTurn(seed, t, me, script)), me);
    FaultFreeOthers(seed, t, script(r.pc).others, me);
    ReachableInv(seed, u);
    ReachableNames(seed, u);
    MetWithoutWait(seed, now, me, script(r.pc).oracle);
    FaultFreeSnoc(seed, u, Step(me, Met(now, me, script(r.pc).oracle)), me);
  }

  /** The invocation is there, and if it is unconflicted it has met no fault. */
  ghost predicate Sound(seed: seq<PublishedRow>, me: nat, u: seq<Event>) {
    && me < |Exec(Init(seed), u).runs|
    && (Unconflicted(seed, Exec(Init(seed), u), me) ==> FaultFree(seed, u, me))
  }

  lemma TurnIsSound(seed: seq<PublishedRow>, t: seq<Event>, me: nat, script: Script)
    requires ValidSeed(seed) && Sound(seed, me, t) && forall pc :: script(pc).oracle.fault.NoFault?
    ensures Sound(seed, me, PlayTurn(seed, t, me, script))
  {
    TurnKeepsSpecs(seed, t, me, script);
    if Unconflicted(seed, Exec(Init(seed), PlayTurn(seed, t, me, script)), me) {
      UnconflictedBefore(seed, Exec(Init(seed), t), Exec(Init(seed), PlayTurn(seed, t, me, script)), me);
      TurnIsFaultFree(seed, t, me, script);
    }
  }

  /** Under a script without faults an unconflicted invocation meets none. */
  lemma PlayIsFaultFree(seed: seq<PublishedRow>, from: seq<Event>, me: nat, script: Script, t: seq<Event>)
    requires ValidSeed(seed) && FaultFree(seed, from, me) && me < |Exec(Init(seed), from).runs|
    requires forall pc :: script(pc).oracle.fault.NoFault?
    requires Played(seed, from, me, script, t) && Unconflicted(seed, Exec(Init(seed), t), me)
    ensures FaultFree(seed, t, me)
  {
    var keeps: seq<Event> -> bool := u => Sound(seed, me, u);
    forall u | keeps(u) ensures keeps(NextTurn(seed, me, script)(u)) {
      TurnIsSound(seed, u, me, script);
    }
    Iterated(keeps, NextTurn(seed, me, script), from, t);
  }

  /** The events go on from `from`, and none deletes the row. */
  ghost predicate GoesOn(seed: seq<PublishedRow>, from: seq<Event>, me: nat, ref: string, u: seq<Event>) {
    me < |Exec(Init(seed), u).runs| && from <= u && RefKept(u, |from|, ref)
  }

  lemma TurnGoesOn(seed: seq<PublishedRow>, from: seq<Event>, t: seq<Event>, me: nat, script: Script, ref: string)
    requires GoesOn(seed, from, me, ref, t)
    ensures me < |Exec(Init(seed), PlayTurn(seed, t, me, script)).runs| && from <= PlayTurn(seed, t, me, script)
    ensures Undisturbed(script, ref) ==> RefKept(PlayTurn(seed, t, me, script), |from|, ref)
  {
    TurnIsStep(seed, t, me, script);
    TurnKeepsSpecs(seed, t, me, script);
    var pc := Exec(Init(seed), t).runs[me].pc;
    OthersAreFrom(script(pc).others, me);
    var u := t + Others(script(pc).others, me);
    if Undisturbed(script, ref) {
      forall k | |from| <= k < |u| ensures !(u[k].Truncate? && u[k].ref == ref) {
        assert k >= |t| ==> u[k] in Others(script(pc).others, me);
      }
    }
  }

  /** Every event since `from` is a statement of the invocation or one the script names. */
  lemma PlayKeepsRef(seed: seq<PublishedRow>, from: seq<Event>, me: nat, script: Script, t: seq<Event>, ref: string)
    requires me < |Exec(Init(seed), from).runs| && Undisturbed(script, ref) && Played(seed, from, me, script, t)
    ensures from <= t && RefKept(t, |from|, ref)
  {
    var keeps: seq<Event> -> bool := u => GoesOn(seed, from, me, ref, u);
    forall u | keeps(u) ensures keeps(NextTurn(seed, me, script)(u)) {
      TurnGoesOn(seed, from, u, me, script, ref);
    }
    Iterated(keeps, NextTurn(seed, me, script), from, t);
  }

  // ---------------------------------------------------------------- clock readings of a script

  /** The stamp is the script's clock reading at the gate, or at the statement that was refused; an
      external reference is the script's. */
  ghost predicate StampedBy(script: Script, r: Run) {
    && (r.reference.Some? && r.spec.source.External? ==> r.reference == Some(script(Resolving).oracle.external))
    && (r.report.Some? && r.error.None? ==> r.stamp == script(Asserting).oracle.now)
    && (r.error.Some? ==> exists pc :: KindAt(pc) == r.error && r.stamp == script(pc).oracle.now)
  }

  lemma StepStampedBy(s: State, me: nat, script: Script)
    requires Inv(s) && me < |s.runs| && StampedBy(script, s.runs[me])
    ensures var o := Met(s, me, script(s.runs[me].pc).oracle);
      me < |Apply(s, Step(me, o)).runs| && StampedBy(script, Apply(s, Step(me, o)).runs[me])
  {
    var r := s.runs[me];
    var o := Met(s, me, script(r.pc).oracle);
    assert RunOk(s, me) && PcOk(r);
    MetKeeps(s, me, script(r.pc).oracle);
    ErrorStep(s, me, o);
    GateStep(s, me, o);
    ReferenceStep(s, me, o);
    if StepOf(s, me, o).Next? {
      StepKeepsSpec(s, me, o);
    }
  }

  ghost predicate Stamped(seed: seq<PublishedRow>, me: nat, script: Script, u: seq<Event>) {
    me < |Exec(Init(seed), u).runs| && StampedBy(script, Exec(Init(seed), u).runs[me])
  }

  lemma TurnIsStamped(seed: seq<PublishedRow>, t: seq<Event>, me: nat, script: Script)
    requires ValidSeed(seed) && Stamped(seed, me, script, t)
    ensures Stamped(seed, me, script, PlayTurn(seed, t, me, script))
  {
    TurnIsStep(seed, t, me, script);
    var u := t + Others(script(Exec(Init(seed), t).runs[me].pc).others, me);
    ReachableInv(seed, u);
    StepStampedBy(Exec(Init(seed), u), me, script);
  }

  lemma StampsFollowScript(seed: seq<PublishedRow>, from: seq<Event>, me: nat, script: Script, t: seq<Event>)
    requires ValidSeed(seed) && Stamped(seed, me, script, from) && Played(seed, from, me, script, t)
    ensures Stamped(seed, me, script, t)
  {
    var keeps: seq<Event> -> bool := u => Stamped(seed, me, script, u);
    forall u | keeps(u) ensures keeps(NextTurn(seed, me, script)(u)) {
      TurnIsStamped(seed, u, me, script);
    }
    Iterated(keeps, NextTurn(seed, me, script), from, t);
  }

  // ---------------------------------------------------------------- a request and its outcome

  /** A request that `run` accepts and the staging writer can write and read back. */
  predicate Proper(request: Request) {
    && request.assertions != []
    && request.key != "" && (forall c <- request.key :: c != '/' && c != '\\')
    && (request.data.Obj? || request.data.Arr?)
    && ValidRunId(request.runId) && Castable(request.runId) && RefRunId(request.runId)
  }

  lemma ProperIsRunnable(request: Request)
    requires Proper(request)
    ensures Runnable(SpecOf(request)) && !Rejected(SpecOf(request))
  {
  }

  /** The outcome of the request against the reference: the run and the row it comes with. */
  ghost predicate Outcome(
      s: State, me: nat, request: Request, startedAt: int, stamp: int, results: seq<AssertionResult>)
    requires me < |s.runs|
  {
    var r, report := s.runs[me], Report(request.runId, results);
    var ref, uuid := Print(request.key, request.runId), UuidOf(request.runId);
    if forall x <- results :: x.status.Passed? then
      && r.pc == Returned(Published, true)
      && PublishedRow(me, PrintPublished(request.key, request.runId), request.key, uuid, ref, request.data, stamp) in s.published
      && AuditRow(me, uuid, request.key, Published, report, ref, Some(PrintPublished(request.key, request.runId)), None,
                  startedAt, stamp) in s.audit
    else
      && r.pc == Returned(RoutedToReview, true)
      && QueueRow(me, uuid, request.key, QueueSeverity(report), report, ref, stamp) in s.queue
      && AuditRow(me, uuid, request.key, RoutedToReview, report, ref, None, None, startedAt, stamp) in s.audit
  }

  lemma ConcludedRows(seed: seq<PublishedRow>, events: seq<Event>, i: nat, request: Request)
    requires ValidSeed(seed) && i < |Exec(Init(seed), events).runs|
    requires var r := Exec(Init(seed), events).runs[i]; ConcludesOn(r) && r.spec == SpecOf(request)
    ensures var s := Exec(Init(seed), events); var r := s.runs[i];
      Outcome(s, i, request, r.startedAt, r.stamp, r.report.value.results)
  {
    var s := Exec(Init(seed), events);
    var r := s.runs[i];
    ReachableLedgers(seed, events);
    assert Ledger(s, |seed|, i);
    CommittedRows(s, |seed|, i);
  }

  lemma {:induction false} AuditByFrom(rows: seq<AuditRow>, i: nat)
    ensures forall a <- AuditBy(rows, i) :: a in rows
  {
    if rows != [] {
      AuditByFrom(rows[..|rows| - 1], i);
    }
  }

  lemma {:induction false} PublishedByFrom(rows: seq<PublishedRow>, i: nat)
    ensures forall p <- PublishedBy(rows, i) :: p in rows
  {
    if rows != [] {
      PublishedByFrom(rows[..|rows| - 1], i);
    }
  }

  lemma {:induction false} QueueByFrom(rows: seq<QueueRow>, i: nat)
    ensures forall q <- QueueBy(rows, i) :: q in rows
  {
    if rows != [] {
      QueueByFrom(rows[..|rows| - 1], i);
    }
  }

  /** The rows of a recorded outcome are in their tables. */
  lemma CommittedRows(s: State, seeded: nat, i: nat)
    requires i < |s.runs| && seeded <= |s.published| && Ledger(s, seeded, i)
    ensures var r := s.runs[i]; var c := Committed(r);
      && (c.Some? ==> AuditRowOf(i, r, c.value) in s.audit)
      && (c == Some(Published) ==> PublishedRowOf(i, r) in s.published)
      && (c == Some(RoutedToReview) ==> QueueRowOf(i, r) in s.queue)
  {
    var r := s.runs[i];
    AuditByFrom(s.audit, i);
    PublishedByFrom(Added(s, seeded), i);
    QueueByFrom(s.queue, i);
    if Committed(r).Some? {
      assert AuditRowOf(i, r, Committed(r).value) in AuditBy(s.audit, i);
    }
    if Committed(r) == Some(Published) {
      assert PublishedRowOf(i, r) in PublishedBy(Added(s, seeded), i);
    }
    if Committed(r) == Some(RoutedToReview) {
      assert QueueRowOf(i, r) in QueueBy(s.queue, i);
    }
  }

  /** What a script without faults guarantees to a proper request with its own run_id. */
  lemma RunDelivers(
      seed: seq<PublishedRow>, before: seq<Event>, request: Request, now: int, me: nat, script: Script, events: seq<Event>)
    requires ValidSeed(seed) && me == |Exec(Init(seed), before).runs|
    requires Played(seed, before + [Launch(request, now)], me, script, events)
    requires me < |Exec(Init(seed), events).runs| && Finished(Exec(Init(seed), events).runs[me].pc)
    requires Proper(request) && HasReference(Exec(Init(seed), before).published, SpecOf(request))
    requires Undisturbed(script, Print(request.key, request.runId)) && Unconflicted(seed, Exec(Init(seed), events), me)
    ensures var s := Exec(Init(seed), events); var r := s.runs[me];
      if MetNoDict(seed, events, me) || Unreportable(r) then r.pc == Escaped(None)
      else
        && r.reference.Some? && RunAll(request.assertions, request.data, r.reference.value).Some?
        && ReferenceFrom(seed, events, me, r.reference.value)
        && (request.source.External? ==> r.reference.value == script(Resolving).oracle.external)
        && Outcome(s, me, request, now, script(Asserting).oracle.now,
                   RunAll(request.assertions, request.data, r.reference.value).value)
  {
    var from := before + [Launch(request, now)];
    var f := Exec(Init(seed), from);
    ExecAppend(Init(seed), before, Launch(request, now));
    assert f.runs[me] == Launched(request, now);
    ProperIsRunnable(request);
    FaultFreeBefore(seed, before, me);
    FaultFreeSnoc(seed, before, Launch(request, now), me);
    PlayIsFaultFree(seed, from, me, script, events);
    PlayKeepsRef(seed, from, me, script, events, Print(request.key, request.runId));
    assert events[..|from|] == from;
    PrefixKept(seed, events, |from|);
    UnconflictedRunConcludes(seed, |from|, events, me);
    StampsFollowScript(seed, from, me, script, events);
    ReferenceIsResolved(seed, events, me);
    if ConcludesOn(Exec(Init(seed), events).runs[me]) {
      ConcludedRows(seed, events, me, request);
      ConcludesWithoutError(seed, events, me);
    }
  }

  lemma ConcludesWithoutError(seed: seq<PublishedRow>, events: seq<Event>, i: nat)
    requires ValidSeed(seed) && i < |Exec(Init(seed), events).runs| && ConcludesOn(Exec(Init(seed), events).runs[i])
    ensures Exec(Init(seed), events).runs[i].error.None?
  {
    ReachableInv(seed, events);
    var s := Exec(Init(seed), events);
    assert RunOk(s, i) && PcOk(s.runs[i]) && ErrorFits(s.runs[i]);
  }
}
