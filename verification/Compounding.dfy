/** More bounds over publish histories: absolute row-count thresholds, and the two statistics
    of the distribution check. */
module Compounding {
  import opened Wrappers
  import opened Json
  import opened RealMath
  import opened Protocol
  import opened History
  import Distribution

  // ---------------------------------------------------------------- absolute row counts

  /** The run takes its reference from the snapshot and includes an absolute check of at most delta. */
  ghost predicate DeltaGuarded(spec: Spec, key: string, delta: int) {
    spec.source.Snapshot? && exists c: RowCount.Config :: DeltaGuard(spec, c, key, delta)
  }

  ghost predicate DeltaGuard(spec: Spec, c: RowCount.Config, key: string, delta: int) {
    && RowCount.AsAssertion(c) in spec.assertions
    && c.Valid() && c.rowCountKey == key && c.threshold.Absolute? && c.threshold.maxDelta <= delta
  }

  /** The payload carries a count within i deltas of r0. */
  predicate DeltaDrift(key: string, r0: int, delta: int, i: nat, v: Value) {
    match RowCount.CountOf(key, v)
    case None => false
    case Some(n) => AbsInt(n - r0) <= i * delta
  }

  function DeltaBound(key: string, r0: int, delta: int): (bound: Bound)
    ensures forall i: nat, v :: bound(i, v) <==> DeltaDrift(key, r0, delta, i, v)
  {
    (i: nat, v: Value) => DeltaDrift(key, r0, delta, i, v)
  }

  lemma NextDelta(delta: int, i: nat)
    ensures (i + 1) * delta == i * delta + delta
  {
  }

  lemma DeltaBoundLoosens(key: string, r0: int, delta: int)
    requires delta >= 0
    ensures Loosening(DeltaBound(key, r0, delta))
  {
    var bound := DeltaBound(key, r0, delta);
    forall j: nat, v | bound(j, v) ensures bound(j + 1, v) {
      NextDelta(delta, j);
    }
  }

  lemma DeltaGuardCarries(spec: Spec, key: string, r0: int, delta: int)
    requires DeltaGuarded(spec, key, delta)
    ensures Carries(DeltaBound(key, r0, delta), spec)
  {
    var bound := DeltaBound(key, r0, delta);
    var c: RowCount.Config :| DeltaGuard(spec, c, key, delta);
    forall j: nat, staged, reference | bound(j, reference) && Accepts(spec, staged, reference)
      ensures bound(j + 1, staged)
    {
      AcceptingMeansPassing(spec, RowCount.AsAssertion(c), staged, reference);
      NextDelta(delta, j);
    }
  }

  /** Row counts under an absolute threshold drift linearly: the count of the i-th record is within
      i*delta of the seed's, provided no staging row is deleted or equal run_ids staged equal data. */
  lemma RowCountsDriftLinearly(
      key: string, r0: int, delta: int, origin: Value, seed: seq<PublishedRow>, events: seq<Event>, d: string)
    requires ValidSeed(seed) && delta >= 0
    requires RowCount.CountOf(key, origin) == Some(r0) && SeededWith(seed, d, origin)
    requires OwnData(seed, events, d)
    requires forall r <- Exec(Init(seed), events).runs :: r.spec.key == d ==> DeltaGuarded(r.spec, key, delta)
    ensures var rows := Exec(Init(seed), events).published;
      forall n | 0 <= n < |rows| && rows[n].key == d :: DeltaDrift(key, r0, delta, CountKey(rows[..n], d), rows[n].payload)
  {
    var bound := DeltaBound(key, r0, delta);
    DeltaBoundLoosens(key, r0, delta);
    assert DeltaDrift(key, r0, delta, 0, origin);
    SeedIsBounded(bound, seed, d, origin);
    DeltaGuardsCarry(key, r0, delta, Exec(Init(seed), events), d);
    SnapshotHistory(bound, seed, events, d);
    DeltaBounded(key, r0, delta, Exec(Init(seed), events).published, d);
  }

  lemma DeltaGuardsCarry(key: string, r0: int, delta: int, s: State, d: string)
    requires forall r <- s.runs :: r.spec.key == d ==> DeltaGuarded(r.spec, key, delta)
    ensures AllCarry(DeltaBound(key, r0, delta), s, d)
  {
    forall i | 0 <= i < |s.runs| && s.runs[i].spec.key == d ensures Carries(DeltaBound(key, r0, delta), s.runs[i].spec) {
      assert s.runs[i] in s.runs;
      DeltaGuardCarries(s.runs[i].spec, key, r0, delta);
    }
  }

  lemma DeltaBounded(key: string, r0: int, delta: int, rows: seq<PublishedRow>, d: string)
    requires Bounded(DeltaBound(key, r0, delta), rows, d)
    ensures forall n | 0 <= n < |rows| && rows[n].key == d ::
      DeltaDrift(key, r0, delta, CountKey(rows[..n], d), rows[n].payload)
  {
    var bound := DeltaBound(key, r0, delta);
    forall n | 0 <= n < |rows| && rows[n].key == d
      ensures DeltaDrift(key, r0, delta, CountKey(rows[..n], d), rows[n].payload)
    {
      assert bound(CountKey(rows[..n], d), rows[n].payload);
    }
  }

  // ---------------------------------------------------------------- means and standard deviations

  const EPSILON := Distribution.EPSILON

  function Larger(a: real, b: real): real {
    if a < b then b else a
  }

  /** The smallest factor by which a step of relative size t changes a size. */
  function Shrink(t: real): real {
    Larger(1.0 - t, 0.0)
  }

  /** x after i steps by the factor b. */
  function After(x: real, b: real, i: nat): real {
    if i == 0 then x else After(x, b, i - 1) * b
  }

  lemma {:induction false} AfterIsPower(x: real, b: real, i: nat)
    ensures After(x, b, i) == x * Pow(b, i)
  {
    if i > 0 {
      AfterIsPower(x, b, i - 1);
      ScaleBand(x, Pow(b, i - 1), b);
    }
  }

  /** The ends of the band after i steps of relative size t: max(m0, guard)*(1+t)^i and
      m0*max(1-t, 0)^i. */
  function High(m0: real, t: real, i: nat): real {
    After(Larger(m0, EPSILON), 1.0 + t, i)
  }

  function Low(m0: real, t: real, i: nat): real {
    After(m0, Shrink(t), i)
  }

  /** At most the high end, and at least the low end as long as that is away from the zero guard. */
  predicate Between(high: real, low: real, size: real) {
    size <= high && (low >= EPSILON ==> low <= size)
  }

  predicate SizeDrift(m0: real, t: real, i: nat, size: real) {
    Between(High(m0, t, i), Low(m0, t, i), size)
  }

  /** The two statistics the distribution check compares. */
  datatype Statistic = OfMean | OfStddev(root: real -> real)

  function Of(stat: Statistic, xs: seq<real>): real
    requires xs != []
  {
    match stat
    case OfMean => Distribution.Mean(xs)
    case OfStddev(root) => Distribution.Stddev(root, xs)
  }

  ghost predicate Sound(stat: Statistic) {
    match stat
    case OfMean => true
    case OfStddev(root) => Distribution.IsRoot(root)
  }

  predicate Drift(stat: Statistic, field: string, m0: real, t: real, i: nat, v: Value) {
    Distribution.Readable(field, v) && SizeDrift(m0, t, i, Abs(Of(stat, Distribution.Numbers(field, v))))
  }

  function DriftBound(stat: Statistic, field: string, m0: real, t: real): (bound: Bound)
    ensures forall i: nat, v :: bound(i, v) <==> Drift(stat, field, m0, t, i, v)
  {
    (i: nat, v: Value) => Drift(stat, field, m0, t, i, v)
  }

  /** The run takes its reference from the snapshot and checks the field's statistic to at most t. */
  ghost predicate Guarded(stat: Statistic, spec: Spec, field: string, t: real) {
    spec.source.Snapshot? && exists c: Distribution.Config, root :: Guard(stat, spec, c, root, field, t)
  }

  ghost predicate Guard(
      stat: Statistic, spec: Spec, c: Distribution.Config, root: real -> real, field: string, t: real)
  {
    && Distribution.AsAssertion(c, root) in spec.assertions && c.Valid() && c.field == field
    && match stat
       case OfMean => c.maxMeanDrift <= t
       case OfStddev(used) => root == used && c.maxStddevDrift <= t
  }

  lemma {:induction false} Grows(x: real, b: real, i: nat)
    requires x >= 0.0 && b >= 1.0
    ensures x <= After(x, b, i) <= After(x, b, i + 1)
  {
    if i > 0 {
      Grows(x, b, i - 1);
    }
    MulLe(1.0, b, After(x, b, i));
  }

  lemma {:induction false} Falls(x: real, b: real, i: nat)
    requires x >= 0.0 && 0.0 <= b <= 1.0
    ensures 0.0 <= After(x, b, i + 1) <= After(x, b, i)
  {
    if i > 0 {
      Falls(x, b, i - 1);
    }
    MulLe(b, 1.0, After(x, b, i));
    ProductNonnegative(After(x, b, i), b);
  }

  lemma Widens(high: real, low: real, high2: real, low2: real, size: real)
    requires Between(high, low, size) && high <= high2 && low2 <= low
    ensures Between(high2, low2, size)
  {
  }

  /** One accepted step away from the guard, on the sizes alone. */
  lemma SizeStep(s: real, r: real, t1: real, t: real)
    requires 0.0 <= t1 <= t && Abs(s - r) <= t1 * Abs(r)
    ensures Abs(s) <= Abs(r) * (1.0 + t)
    ensures Abs(r) * Shrink(t) <= Abs(s)
  {
    var size := Abs(r);
    MulLe(t1, t, size);
    assert size * (1.0 + t) == size + t * size;
    if t <= 1.0 {
      assert size * (1.0 - t) == size - t * size;
    } else {
      assert size * Shrink(t) == 0.0;
    }
  }

  lemma SizeStays(top: real, m: real, grow: real, shrink: real, i: nat, r: real, s: real)
    requires top >= 0.0 && m >= 0.0 && grow >= 1.0 && 0.0 <= shrink <= 1.0
    requires Between(After(top, grow, i), After(m, shrink, i), r) && r * shrink <= s <= r * grow
    ensures Between(After(top, grow, i + 1), After(m, shrink, i + 1), s)
  {
    var high, low := After(top, grow, i), After(m, shrink, i);
    FallsBy(m, shrink, i, low);
    BothStay(high, low, grow, shrink, r, s);
    NextBetween(top, m, grow, shrink, i, s, high * grow, low * shrink);
  }

  lemma FallsBy(x: real, b: real, i: nat, low: real)
    requires x >= 0.0 && 0.0 <= b <= 1.0 && low == After(x, b, i)
    ensures low * b <= low
  {
    Falls(x, b, i);
  }

  lemma NextBetween(top: real, m: real, grow: real, shrink: real, i: nat, s: real, high: real, low: real)
    requires high == After(top, grow, i) * grow && low == After(m, shrink, i) * shrink && Between(high, low, s)
    ensures Between(After(top, grow, i + 1), After(m, shrink, i + 1), s)
  {
  }

  lemma BothStay(top: real, low: real, grow: real, shrink: real, r: real, s: real)
    requires grow >= 1.0 && 0.0 <= shrink <= 1.0 && low * shrink <= low
    requires Between(top, low, r) && r * shrink <= s <= r * grow
    ensures Between(top * grow, low * shrink, s)
  {
    TopStays(top, grow, r, s);
    if low >= EPSILON {
      BottomStays(low, shrink, r, s);
    }
  }

  lemma TopStays(top: real, grow: real, r: real, s: real)
    requires grow >= 0.0 && r <= top && s <= r * grow
    ensures s <= top * grow
  {
    MulLe(r, top, grow);
  }

  lemma BottomStays(low: real, shrink: real, r: real, s: real)
    requires shrink >= 0.0 && low <= r && r * shrink <= s
    ensures low * shrink <= s
  {
    MulLe(low, r, shrink);
  }

  lemma AwaySteps(top: real, m: real, t: real, i: nat, t1: real, s: real, r: real)
    requires top >= 0.0 && m >= 0.0 && 0.0 <= t1 <= t && Abs(s - r) <= t1 * Abs(r)
    requires Between(After(top, 1.0 + t, i), After(m, Shrink(t), i), Abs(r))
    ensures Between(After(top, 1.0 + t, i + 1), After(m, Shrink(t), i + 1), Abs(s))
  {
    SizeStep(s, r, t1, t);
    SizeStays(top, m, 1.0 + t, Shrink(t), i, Abs(r), Abs(s));
  }

  lemma GuardedSteps(top: real, m: real, t: real, i: nat, s: real, r: real)
    requires top >= EPSILON && m >= 0.0 && t >= 0.0 && r < EPSILON && s <= EPSILON
    requires Between(After(top, 1.0 + t, i), After(m, Shrink(t), i), r)
    ensures Between(After(top, 1.0 + t, i + 1), After(m, Shrink(t), i + 1), s)
  {
    Grows(top, 1.0 + t, i);
    Falls(m, Shrink(t), i);
  }

  /** A statistic the check accepts against another. */
  predicate Accepted(t: real, s: real, r: real) {
    if Abs(r) < EPSILON then Abs(s) <= EPSILON else Abs(s - r) <= t * Abs(r)
  }

  lemma DriftSteps(m0: real, t: real, i: nat, t1: real, s: real, r: real)
    requires m0 >= 0.0 && 0.0 <= t1 <= t && SizeDrift(m0, t, i, Abs(r)) && Accepted(t1, s, r)
    ensures SizeDrift(m0, t, i + 1, Abs(s))
  {
    if Abs(r) < EPSILON {
      GuardedSteps(Larger(m0, EPSILON), m0, t, i, Abs(s), Abs(r));
    } else {
      AwaySteps(Larger(m0, EPSILON), m0, t, i, t1, s, r);
    }
  }

  lemma DriftStays(m0: real, t: real, i: nat, size: real)
    requires m0 >= 0.0 && t >= 0.0 && SizeDrift(m0, t, i, size)
    ensures SizeDrift(m0, t, i + 1, size)
  {
    Grows(Larger(m0, EPSILON), 1.0 + t, i);
    Falls(m0, Shrink(t), i);
    Widens(High(m0, t, i), Low(m0, t, i), High(m0, t, i + 1), Low(m0, t, i + 1), size);
  }

  lemma DriftBoundLoosens(stat: Statistic, field: string, m0: real, t: real)
    requires m0 >= 0.0 && t >= 0.0
    ensures Loosening(DriftBound(stat, field, m0, t))
  {
    var bound := DriftBound(stat, field, m0, t);
    forall j: nat, v | bound(j, v) ensures bound(j + 1, v) {
      DriftStays(m0, t, j, Abs(Of(stat, Distribution.Numbers(field, v))));
    }
  }

  lemma StddevIsNonnegative(root: real -> real, xs: seq<real>)
    requires Distribution.IsRoot(root) && xs != []
    ensures Distribution.Stddev(root, xs) >= 0.0
  {
    Distribution.StddevSquared(root, xs);
  }

  /** The tolerance of the check that guards a statistic. */
  function Tolerance(stat: Statistic, c: Distribution.Config): real {
    match stat case OfMean => c.maxMeanDrift case OfStddev(_) => c.maxStddevDrift
  }

  lemma MeanIsAccepted(c: Distribution.Config, s: real, r: real)
    requires !Distribution.MeanFails(c, s, r)
    ensures Accepted(c.maxMeanDrift, s, r)
  {
  }

  lemma StddevIsAccepted(c: Distribution.Config, s: real, r: real)
    requires s >= 0.0 && !Distribution.StddevFails(c, s, r)
    ensures Accepted(c.maxStddevDrift, s, r)
  {
  }

  lemma PassingStatistics(c: Distribution.Config, root: real -> real, staged: Value, reference: Value)
    requires Distribution.Passes(c, root, staged, reference)
    ensures Distribution.Readable(c.field, staged) && Distribution.Readable(c.field, reference)
    ensures var xs, ys := Distribution.Numbers(c.field, staged), Distribution.Numbers(c.field, reference);
      && !Distribution.MeanFails(c, Distribution.Mean(xs), Distribution.Mean(ys))
      && !Distribution.StddevFails(c, Distribution.Stddev(root, xs), Distribution.Stddev(root, ys))
  {
  }

  lemma PassingIsAccepted(stat: Statistic, c: Distribution.Config, root: real -> real, staged: Value, reference: Value)
    requires Sound(stat) && (stat.OfStddev? ==> root == stat.root) && Distribution.Passes(c, root, staged, reference)
    ensures Distribution.Readable(c.field, staged) && Distribution.Readable(c.field, reference)
    ensures Accepted(Tolerance(stat, c), Of(stat, Distribution.Numbers(c.field, staged)),
                     Of(stat, Distribution.Numbers(c.field, reference)))
  {
    PassingStatistics(c, root, staged, reference);
    var xs, ys := Distribution.Numbers(c.field, staged), Distribution.Numbers(c.field, reference);
    match stat
    case OfMean => MeanIsAccepted(c, Distribution.Mean(xs), Distribution.Mean(ys));
    case OfStddev(_) =>
      StddevIsNonnegative(root, xs);
      StddevIsAccepted(c, Distribution.Stddev(root, xs), Distribution.Stddev(root, ys));
  }

  lemma AcceptedIsInBand(
      stat: Statistic, c: Distribution.Config, root: real -> real, m0: real, t: real, j: nat, staged: Value, reference: Value)
    requires m0 >= 0.0 && c.Valid() && Tolerance(stat, c) <= t
    requires Sound(stat) && (stat.OfStddev? ==> root == stat.root)
    requires Drift(stat, c.field, m0, t, j, reference) && Distribution.Passes(c, root, staged, reference)
    ensures Drift(stat, c.field, m0, t, j + 1, staged)
  {
    PassingIsAccepted(stat, c, root, staged, reference);
    DriftSteps(m0, t, j, Tolerance(stat, c), Of(stat, Distribution.Numbers(c.field, staged)),
               Of(stat, Distribution.Numbers(c.field, reference)));
  }

  lemma GuardCarries(stat: Statistic, spec: Spec, field: string, m0: real, t: real)
    requires m0 >= 0.0 && Sound(stat) && Guarded(stat, spec, field, t)
    ensures Carries(DriftBound(stat, field, m0, t), spec)
  {
    var bound := DriftBound(stat, field, m0, t);
    var c: Distribution.Config, root :| Guard(stat, spec, c, root, field, t);
    forall j: nat, staged, reference | bound(j, reference) && Accepts(spec, staged, reference)
      ensures bound(j + 1, staged)
    {
      AcceptingMeansPassing(spec, Distribution.AsAssertion(c, root), staged, reference);
      AcceptedIsInBand(stat, c, root, m0, t, j, staged, reference);
    }
  }

  lemma GuardsCarry(stat: Statistic, field: string, m0: real, t: real, s: State, d: string)
    requires m0 >= 0.0 && Sound(stat)
    requires forall r <- s.runs :: r.spec.key == d ==> Guarded(stat, r.spec, field, t)
    ensures AllCarry(DriftBound(stat, field, m0, t), s, d)
  {
    forall i | 0 <= i < |s.runs| && s.runs[i].spec.key == d ensures Carries(DriftBound(stat, field, m0, t), s.runs[i].spec) {
      assert s.runs[i] in s.runs;
      GuardCarries(stat, s.runs[i].spec, field, m0, t);
    }
  }

  lemma OriginIsInBand(stat: Statistic, field: string, m0: real, t: real, origin: Value)
    requires Distribution.Readable(field, origin) && m0 == Abs(Of(stat, Distribution.Numbers(field, origin)))
    ensures Drift(stat, field, m0, t, 0, origin)
  {
    assert SizeDrift(m0, t, 0, m0);
  }

  /** The i-th record of the dataset, counting from zero, is within i compounded steps. */
  ghost predicate Drifts(stat: Statistic, field: string, m0: real, t: real, rows: seq<PublishedRow>, d: string) {
    forall n | 0 <= n < |rows| && rows[n].key == d :: Drift(stat, field, m0, t, CountKey(rows[..n], d), rows[n].payload)
  }

  lemma DriftIsBounded(stat: Statistic, field: string, m0: real, t: real, rows: seq<PublishedRow>, d: string)
    requires Bounded(DriftBound(stat, field, m0, t), rows, d)
    ensures Drifts(stat, field, m0, t, rows, d)
  {
    var bound := DriftBound(stat, field, m0, t);
    forall n | 0 <= n < |rows| && rows[n].key == d
      ensures Drift(stat, field, m0, t, CountKey(rows[..n], d), rows[n].payload)
    {
      assert bound(CountKey(rows[..n], d), rows[n].payload);
    }
  }

  /** Statistics compound: with every run on the dataset checking the statistic to a tolerance of at
      most t, its size in the i-th record is at most max(m0, guard)*(1+t)^i and, away from the zero
      guard, at least m0*(1-t)^i; provided no staging row is deleted or equal run_ids staged equal
      data. The powers are those of AfterIsPower. */
  lemma StatisticsCompound(
      stat: Statistic, field: string, t: real, origin: Value, seed: seq<PublishedRow>, events: seq<Event>, d: string)
    requires ValidSeed(seed) && t >= 0.0 && Sound(stat) && Distribution.Readable(field, origin) && SeededWith(seed, d, origin)
    requires OwnData(seed, events, d)
    requires forall r <- Exec(Init(seed), events).runs :: r.spec.key == d ==> Guarded(stat, r.spec, field, t)
    ensures Drifts(stat, field, Abs(Of(stat, Distribution.Numbers(field, origin))), t, Exec(Init(seed), events).published, d)
  {
    var m0 := Abs(Of(stat, Distribution.Numbers(field, origin)));
    var bound := DriftBound(stat, field, m0, t);
    DriftBoundLoosens(stat, field, m0, t);
    OriginIsInBand(stat, field, m0, t, origin);
    SeedIsBounded(bound, seed, d, origin);
    GuardsCarry(stat, field, m0, t, Exec(Init(seed), events), d);
    SnapshotHistory(bound, seed, events, d);
    DriftIsBounded(stat, field, m0, t, Exec(Init(seed), events).published, d);
  }

  /** Means compound. */
  lemma MeansCompound(
      field: string, t: real, origin: Value, seed: seq<PublishedRow>, events: seq<Event>, d: string)
    requires ValidSeed(seed) && t >= 0.0 && Distribution.Readable(field, origin) && SeededWith(seed, d, origin)
    requires OwnData(seed, events, d)
    requires forall r <- Exec(Init(seed), events).runs :: r.spec.key == d ==> Guarded(OfMean, r.spec, field, t)
    ensures Drifts(OfMean, field, Abs(Distribution.Mean(Distribution.Numbers(field, origin))), t,
                   Exec(Init(seed), events).published, d)
  {
    StatisticsCompound(OfMean, field, t, origin, seed, events, d);
  }

  /** Standard deviations compound in the same way, whatever square root the checks compute with. */
  lemma StddevsCompound(
      root: real -> real, field: string, t: real, origin: Value, seed: seq<PublishedRow>, events: seq<Event>, d: string)
    requires Distribution.IsRoot(root)
    requires ValidSeed(seed) && t >= 0.0 && Distribution.Readable(field, origin) && SeededWith(seed, d, origin)
    requires OwnData(seed, events, d)
    requires forall r <- Exec(Init(seed), events).runs :: r.spec.key == d ==> Guarded(OfStddev(root), r.spec, field, t)
    ensures Drifts(OfStddev(root), field, Abs(Distribution.Stddev(root, Distribution.Numbers(field, origin))), t,
                   Exec(Init(seed), events).published, d)
  {
    StatisticsCompound(OfStddev(root), field, t, origin, seed, events, d);
  }
}
