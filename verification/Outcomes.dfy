/** What may be published or queued: the gates, the payload that is promoted, and the outcomes of
    one (dataset_key, run_id) pair. */
module Outcomes {
  import opened Wrappers
  import opened Models
  import opened Protocol
  import opened Invariants
  import opened Evidence

  lemma {:induction false} PublishedByHas(rows: seq<PublishedRow>, p: PublishedRow)
    requires p in rows
    ensures p in PublishedBy(rows, p.writer)
  {
    if p != rows[|rows| - 1] {
      assert rows == rows[..|rows| - 1] + [rows[|rows| - 1]];
      PublishedByHas(rows[..|rows| - 1], p);
    }
  }

  lemma {:induction false} QueueByHas(rows: seq<QueueRow>, q: QueueRow)
    requires q in rows
    ensures q in QueueBy(rows, q.writer)
  {
    if q != rows[|rows| - 1] {
      assert rows == rows[..|rows| - 1] + [rows[|rows| - 1]];
      QueueByHas(rows[..|rows| - 1], q);
    }
  }

  /** A row published since the seed is the one its writer committed. */
  lemma PublishedOrigin(seed: seq<PublishedRow>, events: seq<Event>, p: PublishedRow)
    requires ValidSeed(seed) && |seed| <= |Exec(Init(seed), events).published|
    requires p in Added(Exec(Init(seed), events), |seed|)
    ensures var s := Exec(Init(seed), events);
      && p.writer < |s.runs|
      && Committed(s.runs[p.writer]) == Some(Published) && RunOk(s, p.writer)
      && Supports(s.runs[p.writer], Published)
      && p == PublishedRowOf(p.writer, s.runs[p.writer])
  {
    ReachableInv(seed, events);
    ReachableLedgers(seed, events);
    var s := Exec(Init(seed), events);
    PublishedByHas(Added(s, |seed|), p);
    assert if p.writer < |s.runs| then Ledger(s, |seed|, p.writer) else Unwritten(s, |seed|, p.writer);
    assert RunOk(s, p.writer);
  }

  lemma QueuedOrigin(seed: seq<PublishedRow>, events: seq<Event>, q: QueueRow)
    requires ValidSeed(seed) && q in Exec(Init(seed), events).queue
    ensures var s := Exec(Init(seed), events);
      && q.writer < |s.runs|
      && Committed(s.runs[q.writer]) == Some(RoutedToReview) && RunOk(s, q.writer)
      && Supports(s.runs[q.writer], RoutedToReview)
      && q == QueueRowOf(q.writer, s.runs[q.writer])
  {
    ReachableInv(seed, events);
    ReachableLedgers(seed, events);
    var s := Exec(Init(seed), events);
    QueueByHas(s.queue, q);
    assert if q.writer < |s.runs| then Ledger(s, |seed|, q.writer) else Unwritten(s, |seed|, q.writer);
    assert RunOk(s, q.writer);
  }

  /** The hard gate, over whole runs: a published row comes from an invocation whose non-empty
      assertions each gave a PASSED result on the payload read back. */
  lemma PublishedMeansAllPassed(seed: seq<PublishedRow>, events: seq<Event>, p: PublishedRow)
    requires ValidSeed(seed) && |seed| <= |Exec(Init(seed), events).published|
    requires p in Added(Exec(Init(seed), events), |seed|)
    ensures var s := Exec(Init(seed), events);
      && p.writer < |s.runs|
      && var r := s.runs[p.writer];
      && r.staged.Some? && r.reference.Some? && r.spec.assertions != []
      && forall a <- r.spec.assertions ::
           var result := RunOne(a, r.staged.value.payload, r.reference.value);
           result.Some? && result.value.status.Passed?
  {
    PublishedOrigin(seed, events, p);
    var r := Exec(Init(seed), events).runs[p.writer];
    var results := r.report.value.results;
    ResultsAreIsolated(r.spec.assertions, r.staged.value.payload, r.reference.value);
    forall a <- r.spec.assertions
      ensures var result := RunOne(a, r.staged.value.payload, r.reference.value);
        result.Some? && result.value.status.Passed?
    {
      var k :| 0 <= k < |r.spec.assertions| && r.spec.assertions[k] == a;
      assert results[k] in results;
    }
  }

  /** The review gate, over whole runs: a queued row carries a report with a non-passing result,
      its severity is the most critical among the non-passing ones, and its results are what the
      assertions gave on the payload read back, which under consistent staging is the run's own. */
  lemma QueuedMeansFailure(seed: seq<PublishedRow>, events: seq<Event>, q: QueueRow)
    requires ValidSeed(seed) && q in Exec(Init(seed), events).queue
    ensures (exists r :: r in q.report.results && !r.status.Passed? && r.severity == q.severity)
    ensures forall r <- q.report.results :: !r.status.Passed? ==> Order(q.severity) <= Order(r.severity)
    ensures var s := Exec(Init(seed), events);
      && q.writer < |s.runs|
      && var r := s.runs[q.writer];
      && r.staged.Some? && r.reference.Some?
      && RunAll(r.spec.assertions, r.staged.value.payload, r.reference.value) == Some(q.report.results)
      && (Consistent(s, q.key) ==> r.staged.value.payload == r.spec.data)
  {
    QueuedOrigin(seed, events, q);
    GatesPartitionReports(q.report);
    SeverityIsMostCriticalFailure(q.report, q.severity);
    ReachableNames(seed, events);
    var s := Exec(Init(seed), events);
    RowHasOwnData(s, q.writer, s.runs[q.writer].staged.value);
  }

  // ---------------------------------------------------------------- payload integrity

  predicate SamePair(a: Spec, b: Spec) {
    a.key == b.key && a.uuid == b.uuid
  }

  /** Invocations that staged a row of d under one run_id, spelled alike and hence under one
      staging_ref, submitted the same data. */
  ghost predicate Consistent(s: State, d: string) {
    forall i, j | 0 <= i < |s.runs| && 0 <= j < |s.runs| && ShareRef(s, i, j, d) :: s.runs[i].spec.data == s.runs[j].spec.data
  }

  predicate ShareRef(s: State, i: nat, j: nat, d: string)
    requires i < |s.runs| && j < |s.runs|
  {
    var a, b := s.runs[i], s.runs[j];
    a.landed && b.landed && a.spec.key == b.spec.key == d && a.spec.runId == b.spec.runId
  }

  /** No two invocations staged a row of d under one (dataset_key, run_id), however spelled. */
  ghost predicate Unshared(s: State, d: string) {
    forall i, j | 0 <= i < |s.runs| && 0 <= j < |s.runs| && SharePair(s, i, j, d) :: i == j
  }

  predicate SharePair(s: State, i: nat, j: nat, d: string)
    requires i < |s.runs| && j < |s.runs|
  {
    var a, b := s.runs[i], s.runs[j];
    a.landed && b.landed && a.spec.key == d && SamePair(a.spec, b.spec)
  }

  /** One spelling is one UUID. */
  lemma SameRefSamePair(s: State, i: nat, j: nat, d: string)
    requires NamesOk(s) && i < |s.runs| && j < |s.runs| && ShareRef(s, i, j, d)
    ensures SharePair(s, i, j, d)
  {
    assert WellNamed(s.runs[i].spec) && WellNamed(s.runs[j].spec);
  }

  /** Fresh run ids are consistent. */
  lemma UnsharedIsConsistent(seed: seq<PublishedRow>, events: seq<Event>, d: string)
    ensures Unshared(Exec(Init(seed), events), d) ==> Consistent(Exec(Init(seed), events), d)
  {
    var s := Exec(Init(seed), events);
    ReachableNames(seed, events);
    if Unshared(s, d) {
      forall i, j | 0 <= i < |s.runs| && 0 <= j < |s.runs| && ShareRef(s, i, j, d)
        ensures s.runs[i].spec.data == s.runs[j].spec.data
      {
        SameRefSamePair(s, i, j, d);
        assert i == j;
      }
    }
  }

  lemma SharedBefore(s: State, t: State, d: string)
    requires SpecsKept(s, t)
    ensures Consistent(t, d) ==> Consistent(s, d)
    ensures Unshared(t, d) ==> Unshared(s, d)
  {
    forall i, j | 0 <= i < |s.runs| && 0 <= j < |s.runs| && SharePair(s, i, j, d) ensures SharePair(t, i, j, d) {
    }
    forall i, j | 0 <= i < |s.runs| && 0 <= j < |s.runs| && ShareRef(s, i, j, d) ensures ShareRef(t, i, j, d) {
    }
  }

  /** A row found under the staging_ref of an invocation that staged was written under the same key
      and run_id. */
  lemma RowHasOwnData(s: State, i: nat, row: StagedRow)
    requires NamesOk(s) && i < |s.runs| && s.runs[i].landed && s.runs[i].spec.Stageable()
    requires Authentic(s, s.runs[i].spec.ref, row)
    ensures ShareRef(s, i, row.writer, s.runs[i].spec.key)
    ensures Consistent(s, s.runs[i].spec.key) ==> row.payload == s.runs[i].spec.data
    ensures Unshared(s, s.runs[i].spec.key) ==> row.writer == i
  {
    NamesAreInjective(s.runs[i].spec, s.runs[row.writer].spec);
    assert ShareRef(s, i, row.writer, s.runs[i].spec.key);
    SameRefSamePair(s, i, row.writer, s.runs[i].spec.key);
  }

  /** What is promoted is always what some invocation staged under the key and run_id of the
      publishing one, and so is what its assertions saw. If whoever staged a row under one key and
      run_id submitted the same data, the payload promoted is the payload asserted, and the data
      submitted, whatever is deleted from staging and however runs interleave. Of any two requests
      with one key, one run_id and different data the converse is Limits.ReuseCanPublishUnseenData. */
  lemma {:induction false} PayloadIntegrity(seed: seq<PublishedRow>, events: seq<Event>, p: PublishedRow)
    requires ValidSeed(seed) && |seed| <= |Exec(Init(seed), events).published|
    requires p in Added(Exec(Init(seed), events), |seed|)
    ensures var s := Exec(Init(seed), events);
      && p.writer < |s.runs|
      && var r := s.runs[p.writer];
      && r.staged.Some? && r.promoted.Some?
      && var seen, found := r.staged.value.writer, r.promoted.value.writer;
      && seen < |s.runs| && found < |s.runs|
      && ShareRef(s, p.writer, seen, p.key) && r.staged.value.payload == s.runs[seen].spec.data
      && ShareRef(s, p.writer, found, p.key) && p.payload == s.runs[found].spec.data
      && (Consistent(s, p.key) ==> p.payload == r.staged.value.payload == r.spec.data)
  {
    PublishedOrigin(seed, events, p);
    ReachableNames(seed, events);
    var s := Exec(Init(seed), events);
    var r := s.runs[p.writer];
    RowHasOwnData(s, p.writer, r.staged.value);
    RowHasOwnData(s, p.writer, r.promoted.value);
  }

  /** The row an invocation staged is gone, and it has not yet been read for promotion. */
  predicate Barred(s: State, i: nat)
    requires i < |s.runs|
  {
    var r := s.runs[i];
    && r.landed && r.spec.ref !in s.staging
    && !r.pc.PublishInsert? && !r.pc.PublishAudit? && !r.pc.PublishCommit?
    && Committed(r) != Some(Published)
  }

  lemma RefStaysAway(s: State, e: Event, i: nat)
    requires Inv(s) && NamesOk(s) && i < |s.runs| && s.runs[i].landed
    requires Inv(Apply(s, e)) && NamesOk(Apply(s, e)) && Unshared(Apply(s, e), s.runs[i].spec.key)
    requires s.runs[i].spec.ref !in s.staging
    ensures s.runs[i].spec.ref !in Apply(s, e).staging
  {
    var t, ref := Apply(s, e), s.runs[i].spec.ref;
    assert RunOk(s, i);
    ApplyKeepsSpecs(s, e);
    if ref in t.staging {
      ApplyStaging(s, e, ref);
      FlushedRows(s, e.i);
      assert Authentic(t, ref, t.staging[ref]);
      RowHasOwnData(t, i, t.staging[ref]);
    }
  }

  lemma BarredStep(s: State, i: nat, o: Oracle)
    requires Inv(s) && i < |s.runs| && Barred(s, i) && StepOf(s, i, o).Next?
    ensures var r := StepOf(s, i, o).run;
      && r.landed && !r.pc.PublishInsert? && !r.pc.PublishAudit? && !r.pc.PublishCommit?
      && Committed(r) != Some(Published)
  {
    StepSource(s, i, o);
    StepCommits(s, i, o);
    StepOutcome(s, i, o);
    PendingFits(s, i, o);
    StepKeepsSpec(s, i, o);
  }

  lemma ApplyKeepsBarred(s: State, e: Event, i: nat)
    requires Inv(s) && NamesOk(s) && i < |s.runs| && Barred(s, i) && Unshared(Apply(s, e), s.runs[i].spec.key)
    ensures Barred(Apply(s, e), i)
  {
    ApplyKeepsSpecs(s, e);
    ApplyKeepsInv(s, e);
    ApplyKeepsNames(s, e);
    RefStaysAway(s, e, i);
    if e.Step? && e.i == i && StepOf(s, i, e.o).Next? {
      BarredStep(s, i, e.o);
      StepTables(s, i, e.o);
    }
  }

  lemma {:induction false} StaysBarred(seed: seq<PublishedRow>, events: seq<Event>, more: seq<Event>, i: nat)
    requires ValidSeed(seed)
    requires var s := Exec(Init(seed), events); i < |s.runs| && Barred(s, i)
    requires Unshared(Exec(Exec(Init(seed), events), more), Exec(Init(seed), events).runs[i].spec.key)
    ensures var s := Exec(Init(seed), events); var t := Exec(s, more);
      SpecsKept(s, t) && Barred(t, i) && Inv(t) && NamesOk(t)
  {
    var s := Exec(Init(seed), events);
    ReachableInv(seed, events);
    ReachableNames(seed, events);
    if more != [] {
      var before, e := more[..|more| - 1], more[|more| - 1];
      ApplyKeepsSpecs(Exec(s, before), e);
      SharedBefore(Exec(s, before), Exec(s, more), s.runs[i].spec.key);
      StaysBarred(seed, events, before, i);
      ApplyKeepsBarred(Exec(s, before), e, i);
      ApplyKeepsInv(Exec(s, before), e);
      ApplyKeepsNames(Exec(s, before), e);
    }
  }

  /** A staged row deleted before promotion is refused for good: whatever happens afterwards, its
      invocation never publishes, and if all its assertions passed it can return only as ERRORED by
      the publish gate. (Among runs that staged no two rows under one pair; otherwise the row can be
      staged again, which is Limits.ReuseCanPublishUnseenData.) */
  lemma DeletedIsNeverPublished(seed: seq<PublishedRow>, events: seq<Event>, more: seq<Event>, i: nat)
    requires ValidSeed(seed)
    requires var s := Exec(Init(seed), events); i < |s.runs| && Barred(s, i)
    requires Unshared(Exec(Exec(Init(seed), events), more), Exec(Init(seed), events).runs[i].spec.key)
    ensures var t := Exec(Exec(Init(seed), events), more);
      && i < |t.runs| && Committed(t.runs[i]) != Some(Published) && t.runs[i].spec.ref !in t.staging
      && (t.runs[i].pc.Returned? && t.runs[i].report.Some? && t.runs[i].report.value.AllPassed() ==>
            t.runs[i].pc.status.Errored? && t.runs[i].error == Some(PublishRefused))
  {
    StaysBarred(seed, events, more, i);
    var t := Exec(Exec(Init(seed), events), more);
    assert RunOk(t, i) && PcOk(t.runs[i]) && ErrorFits(t.runs[i]);
  }

  // ---------------------------------------------------------------- exclusive outcomes

  ghost predicate NoDeletion(events: seq<Event>) {
    forall e <- events :: !e.Truncate?
  }

  /** Whoever got past staging still has its own row there. */
  ghost predicate RowsKept(s: State) {
    forall i | 0 <= i < |s.runs| && s.runs[i].landed ::
      s.runs[i].spec.ref in s.staging && s.staging[s.runs[i].spec.ref].writer == i
  }

  lemma ApplyKeepsRowsKept(s: State, e: Event)
    requires Inv(s) && RowsKept(s) && !e.Truncate?
    ensures RowsKept(Apply(s, e))
  {
    var t := Apply(s, e);
    ApplyKeepsSpecs(s, e);
    if e.Step? && e.i < |s.runs| && StepOf(s, e.i, e.o).Next? {
      StepLanding(s, e.i, e.o);
      StepTables(s, e.i, e.o);
      FlushedRows(s, e.i);
    }
  }

  lemma {:induction false} ReachableRowsKept(seed: seq<PublishedRow>, events: seq<Event>)
    requires ValidSeed(seed) && NoDeletion(events)
    ensures RowsKept(Exec(Init(seed), events))
  {
    if events != [] {
      var before := events[..|events| - 1];
      ReachableRowsKept(seed, before);
      ReachableInv(seed, before);
      ApplyKeepsRowsKept(Exec(Init(seed), before), events[|events| - 1]);
    }
  }

  /** Over any invocations reusing run ids in any interleaving: without deletions from staging at
      most one invocation of a (dataset_key, run_id) pair gets its row into staging; and without
      deletions, or with deletions but no pair staged twice, no pair is both published and queued for
      review. (Otherwise it can be: Limits.ReuseCanPublishAndQueue.) */
  lemma ExclusiveOutcome(seed: seq<PublishedRow>, events: seq<Event>)
    requires ValidSeed(seed)
    ensures var s := Exec(Init(seed), events);
      && |seed| <= |s.published|
      && (NoDeletion(events) ==> forall d :: Unshared(s, d))
      && (forall p, q | p in Added(s, |seed|) && q in s.queue && (NoDeletion(events) || Unshared(s, p.key)) ::
            !(p.key == q.key && p.uuid == q.uuid))
  {
    var s := Exec(Init(seed), events);
    ReachableLedgers(seed, events);
    if NoDeletion(events) {
      NoDeletionUnshared(seed, events);
    }
    forall p, q | p in Added(s, |seed|) && q in s.queue && (NoDeletion(events) || Unshared(s, p.key))
      ensures !(p.key == q.key && p.uuid == q.uuid)
    {
      PublishedAndQueuedShare(seed, events, p, q);
      assert Unshared(s, p.key);
    }
  }

  lemma NoDeletionUnshared(seed: seq<PublishedRow>, events: seq<Event>)
    requires ValidSeed(seed) && NoDeletion(events)
    ensures forall d :: Unshared(Exec(Init(seed), events), d)
  {
    var s := Exec(Init(seed), events);
    ReachableInv(seed, events);
    ReachableRowsKept(seed, events);
    forall d: string, i, j | 0 <= i < |s.runs| && 0 <= j < |s.runs| && SharePair(s, i, j, d) ensures i == j {
      var a, b := s.runs[i].spec.ref, s.runs[j].spec.ref;
      assert RunOk(s, i) && RunOk(s, j);
      assert SameStaged(s.staging[a], s.staging[b]);
    }
  }

  /** A pair both published and queued was staged by two invocations. */
  lemma PublishedAndQueuedShare(seed: seq<PublishedRow>, events: seq<Event>, p: PublishedRow, q: QueueRow)
    requires ValidSeed(seed) && |seed| <= |Exec(Init(seed), events).published|
    requires p in Added(Exec(Init(seed), events), |seed|) && q in Exec(Init(seed), events).queue
    ensures var s := Exec(Init(seed), events);
      p.key == q.key && p.uuid == q.uuid ==>
        p.writer != q.writer && p.writer < |s.runs| && q.writer < |s.runs| && SharePair(s, p.writer, q.writer, p.key)
  {
    PublishedOrigin(seed, events, p);
    QueuedOrigin(seed, events, q);
  }
}
