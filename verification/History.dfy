/** The feedback loop: published data is the next run's reference. Bounds that one check keeps
    between a payload and its reference compound over whole publish histories. */
module History {
  import opened Wrappers
  import opened Json
  import opened Models
  import opened RealMath
  import opened Protocol
  import opened Invariants
  import opened Evidence
  import opened Snapshots
  import opened Outcomes
  import FxReconciliation
  import RowCount

  /** How many rows belong to the dataset. */
  function CountKey(rows: seq<PublishedRow>, d: string): nat {
    if rows == [] then 0
    else CountKey(rows[..|rows| - 1], d) + (if rows[|rows| - 1].key == d then 1 else 0)
  }

  lemma {:induction false} CountKeyPrefix(rows: seq<PublishedRow>, d: string, n: nat)
    requires n <= |rows|
    ensures CountKey(rows[..n], d) <= CountKey(rows, d)
    ensures n < |rows| && rows[n].key == d ==> CountKey(rows[..n], d) < CountKey(rows, d)
  {
    if n == |rows| {
      assert rows[..n] == rows;
    } else {
      var init := rows[..|rows| - 1];
      assert init[..n] == rows[..n];
      CountKeyPrefix(init, d, n);
    }
  }

  /** A bound on the i-th published payload of a dataset. */
  type Bound = (nat, Value) -> bool

  /** Every assertion of the run gives a PASSED result. */
  predicate Accepts(spec: Spec, staged: Value, reference: Value) {
    var results := RunAll(spec.assertions, staged, reference);
    results.Some? && forall r <- results.value :: r.status.Passed?
  }

  /** The bound concerns dicts only and never tightens as the position grows. */
  ghost predicate Loosening(bound: Bound) {
    && (forall j: nat, v :: bound(j, v) ==> v.Obj?)
    && (forall j: nat, v :: bound(j, v) ==> bound(j + 1, v))
  }

  /** A run that accepts a payload against a reference within bound j accepts it within j + 1. */
  ghost predicate Carries(bound: Bound, spec: Spec) {
    && spec.source.Snapshot?
    && forall j: nat, staged, reference ::
         bound(j, reference) && Accepts(spec, staged, reference) ==> bound(j + 1, staged)
  }

  ghost predicate AllCarry(bound: Bound, s: State, d: string) {
    forall i | 0 <= i < |s.runs| && s.runs[i].spec.key == d :: Carries(bound, s.runs[i].spec)
  }

  /** The i-th record of the dataset, counting from zero, is within bound i. */
  ghost predicate Bounded(bound: Bound, rows: seq<PublishedRow>, d: string) {
    forall n | 0 <= n < |rows| && rows[n].key == d :: bound(CountKey(rows[..n], d), rows[n].payload)
  }

  /** A resolved reference is within the bound of the last record so far. */
  ghost predicate ReferencesBounded(bound: Bound, s: State, d: string) {
    forall i | 0 <= i < |s.runs| && s.runs[i].spec.key == d && s.runs[i].reference.Some? ::
      && 1 <= CountKey(s.published, d)
      && bound(CountKey(s.published, d) - 1, s.runs[i].reference.value)
  }

  lemma {:induction false} Loosen(bound: Bound, j: nat, k: nat, v: Value)
    requires Loosening(bound) && bound(j, v) && j <= k
    ensures bound(k, v)
  {
    if j < k {
      Loosen(bound, j, k - 1, v);
    }
  }

  lemma BoundedAppend(bound: Bound, rows: seq<PublishedRow>, p: PublishedRow, d: string)
    requires Bounded(bound, rows, d)
    requires p.key == d ==> bound(CountKey(rows, d), p.payload)
    ensures Bounded(bound, rows + [p], d)
    ensures CountKey(rows + [p], d) == CountKey(rows, d) + (if p.key == d then 1 else 0)
  {
    var more := rows + [p];
    assert more[..|rows|] == rows;
    forall n | 0 <= n < |more| && more[n].key == d ensures bound(CountKey(more[..n], d), more[n].payload) {
      assert n < |rows| ==> more[..n] == rows[..n];
    }
  }

  /** A row that a commit adds for the dataset is within the next bound. */
  lemma CommittedRowIsBounded(bound: Bound, s: State, i: nat, d: string)
    requires Inv(s) && Consistent(s, d) && NamesOk(s) && Loosening(bound) && AllCarry(bound, s, d) && ReferencesBounded(bound, s, d)
    requires i < |s.runs| && s.runs[i].pc.PublishCommit? && s.runs[i].spec.key == d
    ensures bound(CountKey(s.published, d), PublishedRowOf(i, s.runs[i]).payload)
  {
    var r := s.runs[i];
    assert RunOk(s, i) && PcOk(r);
    RowHasOwnData(s, i, r.staged.value);
    RowHasOwnData(s, i, r.promoted.value);
    assert Accepts(r.spec, r.staged.value.payload, r.reference.value);
    assert Carries(bound, r.spec);
  }

  /** A snapshot reference is the payload of the row the view shows, a dict as it is. */
  lemma ResolvedRow(s: State, i: nat, o: Oracle)
    requires i < |s.runs| && StepOf(s, i, o).Next? && s.runs[i].spec.source.Snapshot?
    requires s.runs[i].reference.None? && StepOf(s, i, o).run.reference.Some?
    ensures IsLatest(s.published, s.runs[i].spec.key, o.pick)
    ensures StepOf(s, i, o).run.reference == AsDict(s.published[o.pick].payload)
  {
  }

  lemma ResolvedIsBounded(bound: Bound, s: State, i: nat, o: Oracle, d: string)
    requires Loosening(bound) && AllCarry(bound, s, d) && Bounded(bound, s.published, d)
    requires i < |s.runs| && StepOf(s, i, o).Next? && s.runs[i].spec.key == d
    requires s.runs[i].reference.None? && StepOf(s, i, o).run.reference.Some?
    ensures 1 <= CountKey(s.published, d)
    ensures bound(CountKey(s.published, d) - 1, StepOf(s, i, o).run.reference.value)
  {
    var k := o.pick;
    assert Carries(bound, s.runs[i].spec);
    ResolvedRow(s, i, o);
    CountKeyPrefix(s.published, d, k);
    assert bound(CountKey(s.published[..k], d), s.published[k].payload);
    Loosen(bound, CountKey(s.published[..k], d), CountKey(s.published, d) - 1, s.published[k].payload);
  }

  lemma StepReference(s: State, i: nat, o: Oracle)
    requires Inv(s) && i < |s.runs| && StepOf(s, i, o).Next?
    ensures s.runs[i].reference.Some? ==> StepOf(s, i, o).run.reference == s.runs[i].reference
  {
    assert RunOk(s, i) && PcOk(s.runs[i]);
  }

  /** One invocation moved to r and the published table grew. */
  lemma MoveKeepsReferencesBounded(bound: Bound, s: State, t: State, i: nat, r: Run, d: string)
    requires Loosening(bound) && ReferencesBounded(bound, s, d)
    requires i < |s.runs| && t.runs == s.runs[i := r] && r.spec == s.runs[i].spec && s.published <= t.published
    requires s.runs[i].reference.Some? ==> r.reference == s.runs[i].reference
    requires r.spec.key == d && s.runs[i].reference.None? && r.reference.Some? ==>
      1 <= CountKey(s.published, d) && bound(CountKey(s.published, d) - 1, r.reference.value)
    ensures ReferencesBounded(bound, t, d)
  {
    CountKeyPrefix(t.published, d, |s.published|);
    assert t.published[..|s.published|] == s.published;
    var before, after := CountKey(s.published, d), CountKey(t.published, d);
    forall j | 0 <= j < |t.runs| && t.runs[j].spec.key == d && t.runs[j].reference.Some?
      ensures 1 <= after && bound(after - 1, t.runs[j].reference.value)
    {
      assert j != i ==> t.runs[j] == s.runs[j];
      Loosen(bound, before - 1, after - 1, t.runs[j].reference.value);
    }
  }

  lemma StepKeepsReferencesBounded(bound: Bound, s: State, i: nat, o: Oracle, d: string)
    requires Inv(s) && Loosening(bound) && AllCarry(bound, s, d)
    requires Bounded(bound, s.published, d) && ReferencesBounded(bound, s, d)
    requires i < |s.runs| && StepOf(s, i, o).Next?
    ensures ReferencesBounded(bound, Apply(s, Step(i, o)), d)
  {
    var r := StepOf(s, i, o).run;
    StepTables(s, i, o);
    StepKeepsSpec(s, i, o);
    StepReference(s, i, o);
    if r.spec.key == d && s.runs[i].reference.None? && r.reference.Some? {
      ResolvedIsBounded(bound, s, i, o, d);
    }
    MoveKeepsReferencesBounded(bound, s, Apply(s, Step(i, o)), i, r, d);
  }

  lemma StepKeepsBounded(bound: Bound, s: State, i: nat, o: Oracle, d: string)
    requires Inv(s) && Consistent(s, d) && NamesOk(s) && Loosening(bound) && AllCarry(bound, s, d)
    requires Bounded(bound, s.published, d) && ReferencesBounded(bound, s, d)
    requires i < |s.runs| && StepOf(s, i, o).Next?
    ensures Bounded(bound, Apply(s, Step(i, o)).published, d)
  {
    StepTables(s, i, o);
    FlushedRows(s, i);
    if StepOf(s, i, o).commits && s.runs[i].txn.published.Some? {
      if s.runs[i].spec.key == d {
        CommittedRowIsBounded(bound, s, i, d);
      }
      BoundedAppend(bound, s.published, s.runs[i].txn.published.value, d);
    } else {
      assert Apply(s, Step(i, o)).published == s.published;
    }
  }

  lemma ApplyKeepsBounded(bound: Bound, s: State, e: Event, d: string)
    requires Inv(s) && Consistent(s, d) && NamesOk(s) && Loosening(bound) && AllCarry(bound, s, d)
    requires Bounded(bound, s.published, d) && ReferencesBounded(bound, s, d)
    ensures Bounded(bound, Apply(s, e).published, d) && ReferencesBounded(bound, Apply(s, e), d)
  {
    if e.Step? && e.i < |s.runs| && StepOf(s, e.i, e.o).Next? {
      StepKeepsBounded(bound, s, e.i, e.o, d);
      StepKeepsReferencesBounded(bound, s, e.i, e.o, d);
    } else {
      assert Apply(s, e).published == s.published;
    }
  }

  lemma AllCarryBefore(bound: Bound, s: State, t: State, d: string)
    requires SpecsKept(s, t) && AllCarry(bound, t, d)
    ensures AllCarry(bound, s, d)
  {
    forall i | 0 <= i < |s.runs| && s.runs[i].spec.key == d ensures Carries(bound, s.runs[i].spec) {
      assert Carries(bound, t.runs[i].spec);
    }
  }

  /** No staging row was deleted, or the runs that staged a row of d under one run_id submitted the
      same data, as they do when no two of them share a run_id (Outcomes.UnsharedIsConsistent). */
  ghost predicate OwnData(seed: seq<PublishedRow>, events: seq<Event>, d: string) {
    NoDeletion(events) || Consistent(Exec(Init(seed), events), d)
  }

  lemma OwnDataIsConsistent(seed: seq<PublishedRow>, events: seq<Event>, d: string)
    requires ValidSeed(seed) && OwnData(seed, events, d)
    ensures Consistent(Exec(Init(seed), events), d)
  {
    if NoDeletion(events) {
      ExclusiveOutcome(seed, events);
      UnsharedIsConsistent(seed, events, d);
    }
  }

  lemma OwnDataBefore(seed: seq<PublishedRow>, events: seq<Event>, d: string)
    requires ValidSeed(seed) && OwnData(seed, events, d) && events != []
    ensures OwnData(seed, events[..|events| - 1], d)
  {
    var before, e := events[..|events| - 1], events[|events| - 1];
    ApplyKeepsSpecs(Exec(Init(seed), before), e);
    SharedBefore(Exec(Init(seed), before), Exec(Init(seed), events), d);
  }

  /** The induction over publish histories. If every run on a dataset takes its reference from the
      snapshot and its checks carry a bound from the reference to the payload, then under every
      interleaving and fault the i-th record of the dataset is within bound i, provided no staging
      row is deleted or the runs of the dataset that stage under one run_id submit the same data. */
  lemma {:induction false} SnapshotHistory(bound: Bound, seed: seq<PublishedRow>, events: seq<Event>, d: string)
    requires ValidSeed(seed) && Loosening(bound) && Bounded(bound, seed, d)
    requires OwnData(seed, events, d) && AllCarry(bound, Exec(Init(seed), events), d)
    ensures Bounded(bound, Exec(Init(seed), events).published, d)
    ensures ReferencesBounded(bound, Exec(Init(seed), events), d)
  {
    if events != [] {
      var before, e := events[..|events| - 1], events[|events| - 1];
      var s := Exec(Init(seed), before);
      ApplyKeepsSpecs(s, e);
      OwnDataBefore(seed, events, d);
      AllCarryBefore(bound, s, Apply(s, e), d);
      SnapshotHistory(bound, seed, before, d);
      ReachableInv(seed, before);
      ReachableNames(seed, before);
      OwnDataIsConsistent(seed, before, d);
      ApplyKeepsBounded(bound, s, e, d);
    }
  }

  // ---------------------------------------------------------------- provenance

  /** A snapshot reference is the payload of a published row of the key. */
  ghost predicate Sourced(rows: seq<PublishedRow>, r: Run) {
    r.spec.source.Snapshot? && r.reference.Some? ==>
      && r.snapshot.Some? && r.snapshot.value < |rows| && rows[r.snapshot.value].key == r.spec.key
      && r.reference == AsDict(rows[r.snapshot.value].payload)
  }

  /** The n-th row was published by a run whose snapshot, if it took one, is an earlier row. */
  ghost predicate Derived(s: State, n: nat)
    requires n < |s.published|
  {
    var w := s.published[n].writer;
    && w < |s.runs| && s.runs[w].reference.Some?
    && (s.runs[w].spec.source.Snapshot? ==> s.runs[w].snapshot.Some? && s.runs[w].snapshot.value < n)
  }

  ghost predicate ProvenanceOk(s: State, seeded: nat) {
    && (forall i | 0 <= i < |s.runs| :: Sourced(s.published, s.runs[i]))
    && (forall n | seeded <= n < |s.published| :: Derived(s, n))
  }

  lemma StepKeepsSnapshot(s: State, i: nat, o: Oracle)
    requires i < |s.runs| && PcOk(s.runs[i]) && StepOf(s, i, o).Next? && s.runs[i].reference.Some?
    ensures StepOf(s, i, o).run.snapshot == s.runs[i].snapshot
  {
  }

  lemma StepTakesSnapshot(s: State, i: nat, o: Oracle)
    requires i < |s.runs| && StepOf(s, i, o).Next? && s.runs[i].spec.source.Snapshot?
    requires s.runs[i].reference.None? && StepOf(s, i, o).run.reference.Some?
    ensures StepOf(s, i, o).run.snapshot == Some(o.pick)
  {
  }

  lemma StepResolves(s: State, i: nat, o: Oracle)
    requires Inv(s) && i < |s.runs| && StepOf(s, i, o).Next?
    ensures var r, q := s.runs[i], StepOf(s, i, o).run;
      && (r.reference.Some? ==> q.reference == r.reference && q.snapshot == r.snapshot)
      && (r.reference.None? && q.reference.Some? && r.spec.source.Snapshot? ==> q.snapshot == Some(o.pick))
  {
    assert RunOk(s, i);
    StepReference(s, i, o);
    if s.runs[i].reference.Some? {
      StepKeepsSnapshot(s, i, o);
    } else if StepOf(s, i, o).run.reference.Some? && s.runs[i].spec.source.Snapshot? {
      StepTakesSnapshot(s, i, o);
    }
  }

  lemma StepIsSourced(s: State, i: nat, o: Oracle)
    requires Inv(s) && i < |s.runs| && StepOf(s, i, o).Next? && Sourced(s.published, s.runs[i])
    ensures Sourced(s.published, StepOf(s, i, o).run)
  {
    StepKeepsSpec(s, i, o);
    StepResolves(s, i, o);
    if s.runs[i].reference.None? && StepOf(s, i, o).run.reference.Some? && s.runs[i].spec.source.Snapshot? {
      ResolvedRow(s, i, o);
    }
  }

  lemma SourcedGrows(rows: seq<PublishedRow>, more: seq<PublishedRow>, r: Run)
    requires Sourced(rows, r) && rows <= more
    ensures Sourced(more, r)
  {
  }

  lemma StepKeepsDerived(s: State, i: nat, o: Oracle, seeded: nat, n: nat)
    requires Inv(s) && ProvenanceOk(s, seeded) && i < |s.runs| && StepOf(s, i, o).Next?
    requires seeded <= n < |Apply(s, Step(i, o)).published|
    ensures Derived(Apply(s, Step(i, o)), n)
  {
    StepTables(s, i, o);
    StepKeepsSpec(s, i, o);
    StepResolves(s, i, o);
    if n < |s.published| {
      assert Derived(s, n);
    } else {
      FlushedRows(s, i);
      assert RunOk(s, i) && PcOk(s.runs[i]) && Sourced(s.published, s.runs[i]);
    }
  }

  lemma ApplyKeepsSourced(s: State, e: Event, seeded: nat, i: nat)
    requires Inv(s) && ProvenanceOk(s, seeded) && i < |Apply(s, e).runs|
    ensures Sourced(Apply(s, e).published, Apply(s, e).runs[i])
  {
    ApplyGrowsPublished(s, e);
    if i < |s.runs| {
      assert Sourced(s.published, s.runs[i]);
      if e.Step? && e.i == i && StepOf(s, i, e.o).Next? {
        StepTables(s, i, e.o);
        StepIsSourced(s, i, e.o);
      }
      SourcedGrows(s.published, Apply(s, e).published, Apply(s, e).runs[i]);
    }
  }

  lemma ApplyKeepsProvenance(s: State, e: Event, seeded: nat)
    requires Inv(s) && ProvenanceOk(s, seeded)
    ensures ProvenanceOk(Apply(s, e), seeded)
  {
    var t := Apply(s, e);
    forall i | 0 <= i < |t.runs| ensures Sourced(t.published, t.runs[i]) {
      ApplyKeepsSourced(s, e, seeded, i);
    }
    forall n | seeded <= n < |t.published| ensures Derived(t, n) {
      if e.Step? && e.i < |s.runs| && StepOf(s, e.i, e.o).Next? {
        StepKeepsDerived(s, e.i, e.o, seeded, n);
      } else {
        assert t.published == s.published && Derived(s, n);
      }
    }
  }

  lemma {:induction false} ReachableProvenance(seed: seq<PublishedRow>, events: seq<Event>)
    requires ValidSeed(seed)
    ensures ProvenanceOk(Exec(Init(seed), events), |seed|)
  {
    if events != [] {
      var before := events[..|events| - 1];
      ReachableProvenance(seed, before);
      ReachableInv(seed, before);
      ApplyKeepsProvenance(Exec(Init(seed), before), events[|events| - 1], |seed|);
    }
  }

  /** Record n was accepted against the earlier record k of its dataset. */
  ghost predicate AcceptedAgainst(rows: seq<PublishedRow>, n: nat, k: nat, spec: Spec, payload: Value) {
    && k < n < |rows| && rows[k].key == rows[n].key && AsDict(rows[k].payload).Some?
    && Accepts(spec, payload, AsDict(rows[k].payload).value)
  }

  /** Provenance: every record past the seed whose run took its reference from the snapshot is a
      payload that all assertions of that run accepted against an earlier record of the dataset; the
      payload published itself, unless a staging row was deleted and unequal data staged under one
      run_id. */
  lemma {:induction false} RecordsDeriveFromEarlier(seed: seq<PublishedRow>, events: seq<Event>, n: nat)
    requires ValidSeed(seed) && |seed| <= n < |Exec(Init(seed), events).published|
    ensures var s := Exec(Init(seed), events); var w := s.published[n].writer;
      && w < |s.runs| && s.runs[w].staged.Some?
      && var r := s.runs[w];
      r.spec.source.Snapshot? ==>
        exists k: nat ::
          && AcceptedAgainst(s.published, n, k, r.spec, r.staged.value.payload)
          && (OwnData(seed, events, s.published[n].key) ==>
                AcceptedAgainst(s.published, n, k, r.spec, s.published[n].payload))
  {
    var s := Exec(Init(seed), events);
    var p := s.published[n];
    assert p == Added(s, |seed|)[n - |seed|];
    PublishedOrigin(seed, events, p);
    PayloadIntegrity(seed, events, p);
    ReachableProvenance(seed, events);
    var r := s.runs[p.writer];
    assert Derived(s, n) && Sourced(s.published, r);
    if OwnData(seed, events, p.key) {
      OwnDataIsConsistent(seed, events, p.key);
    }
    if r.spec.source.Snapshot? {
      assert AcceptedAgainst(s.published, n, r.snapshot.value, r.spec, r.staged.value.payload);
    }
  }

  // ---------------------------------------------------------------- one seed record

  /** The dataset starts from one published payload. */
  ghost predicate SeededWith(seed: seq<PublishedRow>, d: string, payload: Value) {
    exists n | 0 <= n < |seed| :: SoleSeed(seed, d, n) && seed[n].payload == payload
  }

  ghost predicate SoleSeed(seed: seq<PublishedRow>, d: string, n: nat) {
    n < |seed| && seed[n].key == d && forall k | 0 <= k < |seed| && k != n :: seed[k].key != d
  }

  lemma {:induction false} NoneCounted(rows: seq<PublishedRow>, d: string)
    requires forall p <- rows :: p.key != d
    ensures CountKey(rows, d) == 0
  {
    if rows != [] {
      NoneCounted(rows[..|rows| - 1], d);
    }
  }

  lemma SeedIsBounded(bound: Bound, seed: seq<PublishedRow>, d: string, payload: Value)
    requires SeededWith(seed, d, payload) && bound(0, payload)
    ensures Bounded(bound, seed, d)
  {
    var n :| 0 <= n < |seed| && SoleSeed(seed, d, n) && seed[n].payload == payload;
    NoneCounted(seed[..n], d);
  }

  lemma AcceptingMeansPassing(spec: Spec, a: Assertion, staged: Value, reference: Value)
    requires Accepts(spec, staged, reference) && a in spec.assertions
    ensures RunOne(a, staged, reference).Some? && RunOne(a, staged, reference).value.status.Passed?
  {
    ResultsAreIsolated(spec.assertions, staged, reference);
    var results := RunAll(spec.assertions, staged, reference).value;
    var k :| 0 <= k < |spec.assertions| && spec.assertions[k] == a;
    assert results[k] in results;
  }

  // ---------------------------------------------------------------- FX drift

  /** The run takes its reference from the snapshot and includes an FX check of at most t. */
  ghost predicate FxGuarded(spec: Spec, t: real) {
    spec.source.Snapshot? && exists c: FxReconciliation.Config ::
      FxReconciliation.AsAssertion(c) in spec.assertions && c.tolerance <= t
  }

  predicate FxWithin(t: real, origin: Value, i: nat, v: Value) {
    FxReconciliation.Passes(i as real * t, v, origin)
  }

  function FxBound(t: real, origin: Value): (bound: Bound)
    ensures forall i: nat, v :: bound(i, v) <==> FxWithin(t, origin, i, v)
  {
    (i: nat, v: Value) => FxWithin(t, origin, i, v)
  }

  lemma FxWithinGrows(t: real, origin: Value, tolerance: real, j: nat, staged: Value, reference: Value)
    requires FxWithin(t, origin, j, reference) && tolerance <= t
    requires FxReconciliation.Passes(tolerance, staged, reference)
    ensures FxWithin(t, origin, j + 1, staged)
  {
    FxReconciliation.PassingComposes(staged, reference, origin, tolerance, j as real * t);
    Distribute(j as real, 1.0, t);
    FxReconciliation.PassingIsMonotone(staged, origin, tolerance + j as real * t, (j + 1) as real * t);
  }

  lemma FxWithinLoosens(t: real, origin: Value, j: nat, v: Value)
    requires t >= 0.0 && FxWithin(t, origin, j, v)
    ensures FxWithin(t, origin, j + 1, v)
  {
    Distribute(j as real, 1.0, t);
    FxReconciliation.PassingIsMonotone(v, origin, j as real * t, (j + 1) as real * t);
  }

  lemma FxBoundLoosens(t: real, origin: Value)
    requires t >= 0.0
    ensures Loosening(FxBound(t, origin))
  {
    var bound := FxBound(t, origin);
    forall j: nat, v | bound(j, v) ensures bound(j + 1, v) {
      FxWithinLoosens(t, origin, j, v);
    }
  }

  lemma FxGuardCarries(spec: Spec, t: real, origin: Value)
    requires FxGuarded(spec, t)
    ensures Carries(FxBound(t, origin), spec)
  {
    var bound := FxBound(t, origin);
    var c: FxReconciliation.Config :| FxReconciliation.AsAssertion(c) in spec.assertions && c.tolerance <= t;
    forall j: nat, staged, reference | bound(j, reference) && Accepts(spec, staged, reference)
      ensures bound(j + 1, staged)
    {
      AcceptingMeansPassing(spec, FxReconciliation.AsAssertion(c), staged, reference);
      FxWithinGrows(t, origin, c.tolerance, j, staged, reference);
    }
  }

  /** The same keys, and every rate within i*t of the origin's. */
  ghost predicate FxDrift(i: nat, t: real, v: Value, origin: Value) {
    && v.Obj? && origin.Obj? && v.fields.Keys == origin.fields.Keys
    && forall k <- origin.fields.Keys ::
         && Numeric(v.fields[k]) && Numeric(origin.fields[k])
         && Abs(AsReal(v.fields[k]) - AsReal(origin.fields[k])) <= i as real * t
  }

  lemma FxWithinMeans(t: real, origin: Value, i: nat, v: Value)
    requires FxWithin(t, origin, i, v)
    ensures FxDrift(i, t, v, origin)
  {
    forall k <- origin.fields.Keys ensures FxReconciliation.Agrees(i as real * t, v.fields[k], origin.fields[k]) {
    }
  }

  /** FX drift is at most linear: with every run on the dataset guarded by tolerance t, the i-th
      published record has the seed's keys and each of its rates is within i*t of the seed's,
      provided no staging row is deleted or equal run_ids staged equal data. */
  lemma FxDriftIsLinear(t: real, origin: Value, seed: seq<PublishedRow>, events: seq<Event>, d: string)
    requires ValidSeed(seed) && t >= 0.0
    requires FxReconciliation.RateTable(origin) && SeededWith(seed, d, origin)
    requires OwnData(seed, events, d)
    requires forall r <- Exec(Init(seed), events).runs :: r.spec.key == d ==> FxGuarded(r.spec, t)
    ensures var rows := Exec(Init(seed), events).published;
      forall n | 0 <= n < |rows| && rows[n].key == d ::
        FxDrift(CountKey(rows[..n], d), t, rows[n].payload, origin)
  {
    FxSeedIsBounded(t, origin, seed, d);
    FxGuardsCarry(t, origin, Exec(Init(seed), events), d);
    FxBoundLoosens(t, origin);
    SnapshotHistory(FxBound(t, origin), seed, events, d);
    FxBoundedMeansDrift(t, origin, Exec(Init(seed), events).published, d);
  }

  lemma FxSeedIsBounded(t: real, origin: Value, seed: seq<PublishedRow>, d: string)
    requires FxReconciliation.RateTable(origin) && SeededWith(seed, d, origin)
    ensures Bounded(FxBound(t, origin), seed, d)
  {
    FxReconciliation.RateTablesAgreeWithThemselves(0.0, origin);
    assert FxWithin(t, origin, 0, origin);
    SeedIsBounded(FxBound(t, origin), seed, d, origin);
  }

  lemma FxGuardsCarry(t: real, origin: Value, s: State, d: string)
    requires forall r <- s.runs :: r.spec.key == d ==> FxGuarded(r.spec, t)
    ensures AllCarry(FxBound(t, origin), s, d)
  {
    forall i | 0 <= i < |s.runs| && s.runs[i].spec.key == d ensures Carries(FxBound(t, origin), s.runs[i].spec) {
      assert s.runs[i] in s.runs;
      FxGuardCarries(s.runs[i].spec, t, origin);
    }
  }

  lemma FxBoundedMeansDrift(t: real, origin: Value, rows: seq<PublishedRow>, d: string)
    requires Bounded(FxBound(t, origin), rows, d)
    ensures forall n | 0 <= n < |rows| && rows[n].key == d ::
      FxDrift(CountKey(rows[..n], d), t, rows[n].payload, origin)
  {
    forall n | 0 <= n < |rows| && rows[n].key == d
      ensures FxDrift(CountKey(rows[..n], d), t, rows[n].payload, origin)
    {
      FxWithinMeans(t, origin, CountKey(rows[..n], d), rows[n].payload);
    }
  }

  // ---------------------------------------------------------------- row counts

  function Pow(b: real, n: nat): real {
    if n == 0 then 1.0 else b * Pow(b, n - 1)
  }

  lemma {:induction false} PowNonnegative(b: real, n: nat)
    requires b >= 0.0
    ensures Pow(b, n) >= 0.0
  {
    if n > 0 {
      PowNonnegative(b, n - 1);
      ProductNonnegative(b, Pow(b, n - 1));
    }
  }

  /** The count lies in the band that i steps of relative size q span around r0. */
  predicate InBand(r0: int, q: real, i: nat, count: int) {
    r0 as real * Pow(1.0 - q, i) <= count as real <= r0 as real * Pow(1.0 + q, i)
  }

  lemma ScaleBand(x: real, pow: real, b: real)
    ensures x * (b * pow) == (x * pow) * b
  {
    Reassociate(x, pow, b);
    assert b * pow == pow * b;
  }

  lemma BandWidens(r0: int, q: real, i: nat, count: int)
    requires r0 >= 0 && 0.0 <= q <= 1.0 && InBand(r0, q, i, count)
    ensures InBand(r0, q, i + 1, count)
  {
    var x, lo, hi := r0 as real, Pow(1.0 - q, i), Pow(1.0 + q, i);
    PowNonnegative(1.0 - q, i);
    PowNonnegative(1.0 + q, i);
    ProductNonnegative(x, lo);
    ProductNonnegative(x, hi);
    ScaleBand(x, lo, 1.0 - q);
    ScaleBand(x, hi, 1.0 + q);
    ProductNonnegative(x * lo, q);
    ProductNonnegative(x * hi, q);
    Distribute(1.0, q, x * lo);
    Distribute(1.0, q, x * hi);
  }

  lemma RealBandSteps(x: real, lo: real, shrink: real, hi: real, grow: real, r: real, s: real)
    requires shrink >= 0.0 && grow >= 0.0
    requires x * lo <= r <= x * hi && r * shrink <= s <= r * grow
    ensures x * (shrink * lo) <= s <= x * (grow * hi)
  {
    ScaleBand(x, lo, shrink);
    ScaleBand(x, hi, grow);
    MulLe(x * lo, r, shrink);
    MulLe(r, x * hi, grow);
  }

  lemma BandSteps(r0: int, q: real, i: nat, reference: int, staged: int, x: real, s: real)
    requires r0 >= 0 && 0.0 <= q <= 1.0 && InBand(r0, q, i, reference)
    requires x == reference as real && s == staged as real && x * (1.0 - q) <= s <= x * (1.0 + q)
    ensures InBand(r0, q, i + 1, staged)
  {
    RealBandSteps(r0 as real, Pow(1.0 - q, i), 1.0 - q, Pow(1.0 + q, i), 1.0 + q, x, s);
  }

  lemma BandIsNonnegative(r0: int, q: real, i: nat, count: int)
    requires r0 >= 0 && 0.0 <= q <= 1.0 && InBand(r0, q, i, count)
    ensures count >= 0
    ensures r0 == 0 ==> count == 0
  {
    PowNonnegative(1.0 - q, i);
    ProductNonnegative(r0 as real, Pow(1.0 - q, i));
  }

  /** The run takes its reference from the snapshot and includes a percentage check of at most p,
      on this key, refusing empty loads when `nonempty` is set. */
  ghost predicate CountGuarded(spec: Spec, key: string, p: real, nonempty: bool) {
    spec.source.Snapshot? && exists c: RowCount.Config :: CountGuard(spec, c, key, p, nonempty)
  }

  ghost predicate CountGuard(spec: Spec, c: RowCount.Config, key: string, p: real, nonempty: bool) {
    && RowCount.AsAssertion(c) in spec.assertions
    && c.Valid() && c.rowCountKey == key && c.threshold.Percent? && c.threshold.maxPct <= p
    && (nonempty ==> !c.allowEmpty)
  }

  predicate CountWithin(key: string, r0: int, q: real, nonempty: bool, i: nat, v: Value) {
    v.Obj? && match RowCount.CountOf(key, v)
              case None => false
              case Some(n) => InBand(r0, q, i, n) && (nonempty ==> n > 0)
  }

  function CountBound(key: string, r0: int, q: real, nonempty: bool): (bound: Bound)
    ensures forall i: nat, v :: bound(i, v) <==> CountWithin(key, r0, q, nonempty, i, v)
  {
    (i: nat, v: Value) => CountWithin(key, r0, q, nonempty, i, v)
  }

  lemma CountBoundLoosens(key: string, r0: int, q: real, nonempty: bool)
    requires r0 >= 0 && 0.0 <= q <= 1.0
    ensures Loosening(CountBound(key, r0, q, nonempty))
  {
    var bound := CountBound(key, r0, q, nonempty);
    forall j: nat, v | bound(j, v) ensures bound(j + 1, v) {
      BandWidens(r0, q, j, RowCount.CountOf(key, v).value);
    }
  }

  lemma WiderPercent(q1: real, q: real, x: real, s: real)
    requires q1 <= q && x >= 0.0 && x * (1.0 - q1) <= s <= x * (1.0 + q1)
    ensures x * (1.0 - q) <= s <= x * (1.0 + q)
  {
    MulLe(1.0 - q, 1.0 - q1, x);
    MulLe(1.0 + q1, 1.0 + q, x);
  }

  lemma RelativeStep(r0: int, q1: real, q: real, i: nat, reference: int, staged: int)
    requires r0 >= 0 && q1 <= q && 0.0 <= q <= 1.0 && reference > 0 && InBand(r0, q, i, reference)
    requires reference as real * (1.0 - q1) <= staged as real <= reference as real * (1.0 + q1)
    ensures InBand(r0, q, i + 1, staged)
  {
    var x, s := reference as real, staged as real;
    WiderPercent(q1, q, x, s);
    BandSteps(r0, q, i, reference, staged, x, s);
  }

  lemma AcceptedCountIsInBand(c: RowCount.Config, r0: int, p: real, j: nat, staged: int, reference: int)
    requires c.Valid() && c.threshold.Percent? && c.threshold.maxPct <= p <= 100.0
    requires r0 >= 0 && InBand(r0, p / 100.0, j, reference) && RowCount.CountsPass(c, staged, reference)
    ensures InBand(r0, p / 100.0, j + 1, staged)
    ensures !c.allowEmpty ==> staged > 0
  {
    var q, q1 := p / 100.0, c.threshold.maxPct / 100.0;
    BandIsNonnegative(r0, q, j, reference);
    RowCount.PercentAcceptance(c.threshold.maxPct, staged, reference);
    if reference > 0 {
      RelativeStep(r0, q1, q, j, reference, staged);
    } else {
      BandWidens(r0, q, j, reference);
    }
    BandIsNonnegative(r0, q, j + 1, staged);
  }

  lemma CountGuardCarries(spec: Spec, key: string, r0: int, p: real, nonempty: bool)
    requires r0 >= 0 && p <= 100.0 && CountGuarded(spec, key, p, nonempty)
    ensures Carries(CountBound(key, r0, p / 100.0, nonempty), spec)
  {
    var bound := CountBound(key, r0, p / 100.0, nonempty);
    var c: RowCount.Config :| CountGuard(spec, c, key, p, nonempty);
    forall j: nat, staged, reference | bound(j, reference) && Accepts(spec, staged, reference)
      ensures bound(j + 1, staged)
    {
      AcceptingMeansPassing(spec, RowCount.AsAssertion(c), staged, reference);
      AcceptedCountIsInBand(c, r0, p, j, RowCount.CountOf(key, staged).value, RowCount.CountOf(key, reference).value);
    }
  }

  /** The payload carries a count within i compounded steps of r0, positive if empty loads are
      refused, and zero if r0 is. */
  ghost predicate CountDrift(key: string, r0: int, q: real, nonempty: bool, i: nat, v: Value) {
    var count := RowCount.CountOf(key, v);
    && count.Some?
    && InBand(r0, q, i, count.value)
    && (nonempty ==> count.value > 0)
    && (r0 == 0 ==> count.value == 0)
  }

  /** Row counts compound: with every run on the dataset guarded by p percent, the count of the
      i-th record lies in [r0(1-p/100)^i, r0(1+p/100)^i]; it stays positive if empty loads are
      refused throughout, and it stays zero if it starts at zero; provided no staging row is deleted
      or equal run_ids staged equal data. */
  lemma RowCountsCompound(
      key: string, r0: int, p: real, nonempty: bool, origin: Value,
      seed: seq<PublishedRow>, events: seq<Event>, d: string)
    requires ValidSeed(seed) && 0.0 <= p <= 100.0 && r0 >= 0 && (nonempty ==> r0 > 0)
    requires RowCount.CountOf(key, origin) == Some(r0) && SeededWith(seed, d, origin)
    requires OwnData(seed, events, d)
    requires forall r <- Exec(Init(seed), events).runs :: r.spec.key == d ==> CountGuarded(r.spec, key, p, nonempty)
    ensures CountsDrift(key, r0, p / 100.0, nonempty, Exec(Init(seed), events).published, d)
  {
    CountsWithin(key, r0, p, p / 100.0, nonempty, origin, seed, events, d);
  }

  lemma CountsWithin(
      key: string, r0: int, p: real, q: real, nonempty: bool, origin: Value,
      seed: seq<PublishedRow>, events: seq<Event>, d: string)
    requires ValidSeed(seed) && 0.0 <= p <= 100.0 && q == p / 100.0 && r0 >= 0 && (nonempty ==> r0 > 0)
    requires RowCount.CountOf(key, origin) == Some(r0) && SeededWith(seed, d, origin)
    requires OwnData(seed, events, d)
    requires forall r <- Exec(Init(seed), events).runs :: r.spec.key == d ==> CountGuarded(r.spec, key, p, nonempty)
    ensures CountsDrift(key, r0, q, nonempty, Exec(Init(seed), events).published, d)
  {
    CountGuardsCarry(key, r0, p, q, nonempty, Exec(Init(seed), events), d);
    CountsStayInBand(key, r0, q, nonempty, origin, seed, events, d);
  }

  /** The i-th record of the dataset, counting from zero, is within i compounded steps. */
  ghost predicate CountsDrift(key: string, r0: int, q: real, nonempty: bool, rows: seq<PublishedRow>, d: string) {
    forall n | 0 <= n < |rows| && rows[n].key == d ::
      CountDrift(key, r0, q, nonempty, CountKey(rows[..n], d), rows[n].payload)
  }

  lemma CountsStayInBand(
      key: string, r0: int, q: real, nonempty: bool, origin: Value,
      seed: seq<PublishedRow>, events: seq<Event>, d: string)
    requires ValidSeed(seed) && 0.0 <= q <= 1.0 && r0 >= 0 && (nonempty ==> r0 > 0)
    requires RowCount.CountOf(key, origin) == Some(r0) && SeededWith(seed, d, origin)
    requires OwnData(seed, events, d) && AllCarry(CountBound(key, r0, q, nonempty), Exec(Init(seed), events), d)
    ensures CountsDrift(key, r0, q, nonempty, Exec(Init(seed), events).published, d)
  {
    CountBoundLoosens(key, r0, q, nonempty);
    CountSeedIsBounded(key, r0, q, nonempty, origin, seed, d);
    SnapshotHistory(CountBound(key, r0, q, nonempty), seed, events, d);
    CountBoundedMeans(key, r0, q, nonempty, Exec(Init(seed), events).published, d);
  }

  lemma CountBoundedMeans(key: string, r0: int, q: real, nonempty: bool, rows: seq<PublishedRow>, d: string)
    requires r0 >= 0 && 0.0 <= q <= 1.0 && Bounded(CountBound(key, r0, q, nonempty), rows, d)
    ensures CountsDrift(key, r0, q, nonempty, rows, d)
  {
    var bound := CountBound(key, r0, q, nonempty);
    forall n | 0 <= n < |rows| && rows[n].key == d
      ensures CountDrift(key, r0, q, nonempty, CountKey(rows[..n], d), rows[n].payload)
    {
      assert bound(CountKey(rows[..n], d), rows[n].payload);
      BandIsNonnegative(r0, q, CountKey(rows[..n], d), RowCount.CountOf(key, rows[n].payload).value);
    }
  }

  lemma CountSeedIsBounded(
      key: string, r0: int, q: real, nonempty: bool, origin: Value, seed: seq<PublishedRow>, d: string)
    requires RowCount.CountOf(key, origin) == Some(r0) && (nonempty ==> r0 > 0) && SeededWith(seed, d, origin)
    ensures Bounded(CountBound(key, r0, q, nonempty), seed, d)
  {
    assert InBand(r0, q, 0, r0);
    assert CountWithin(key, r0, q, nonempty, 0, origin);
    SeedIsBounded(CountBound(key, r0, q, nonempty), seed, d, origin);
  }

  lemma CountGuardsCarry(key: string, r0: int, p: real, q: real, nonempty: bool, s: State, d: string)
    requires r0 >= 0 && p <= 100.0 && q == p / 100.0
    requires forall r <- s.runs :: r.spec.key == d ==> CountGuarded(r.spec, key, p, nonempty)
    ensures AllCarry(CountBound(key, r0, q, nonempty), s, d)
  {
    forall i | 0 <= i < |s.runs| && s.runs[i].spec.key == d
      ensures Carries(CountBound(key, r0, q, nonempty), s.runs[i].spec)
    {
      assert s.runs[i] in s.runs;
      CountGuardCarries(s.runs[i].spec, key, r0, p, nonempty);
    }
  }
}
