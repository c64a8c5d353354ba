/** assertions_library/distribution_check.py, over exact reals. `math.sqrt` is a parameter `root`
    of which only its defining property is used. */
module Distribution {
  import opened Wrappers
  import opened Json
  import opened Models
  import opened RealMath

  const NAME := "numeric_distribution_check"

  /** The zero guard of `_relative_drift` and of the two undefined-drift branches. */
  const EPSILON := 0.0000000001

  datatype Config = Config(field: string, maxMeanDrift: real, maxStddevDrift: real, minSampleSize: int) {
    /** What the constructor accepts. */
    predicate Valid() {
      maxMeanDrift >= 0.0 && maxStddevDrift >= 0.0 && minSampleSize >= 1
    }
  }

  ghost predicate IsRoot(root: real -> real) {
    forall x: real :: x >= 0.0 ==> root(x) >= 0.0 && root(x) * root(x) == x
  }

  // ---------------------------------------------------------------- statistics

  function SumOf(f: real -> real, xs: seq<real>): real {
    if xs == [] then 0.0 else f(xs[0]) + SumOf(f, xs[1..])
  }

  const IDENTITY: real -> real := x => x

  function SquareFrom(mu: real): real -> real {
    x => (x - mu) * (x - mu)
  }

  /** `_mean`. */
  function Mean(xs: seq<real>): real
    requires xs != []
  {
    SumOf(IDENTITY, xs) / |xs| as real
  }

  /** The population variance. */
  function Variance(xs: seq<real>): real
    requires xs != []
  {
    SumOf(SquareFrom(Mean(xs)), xs) / |xs| as real
  }

  /** `_stddev`. */
  function Stddev(root: real -> real, xs: seq<real>): real
    requires xs != []
  {
    if |xs| < 2 then 0.0 else root(Variance(xs))
  }

  /** `_relative_drift`. */
  function RelativeDrift(staged: real, reference: real): Option<real> {
    if Abs(reference) < EPSILON then None
    else Some(Abs(staged - reference) / Abs(reference))
  }

  /** The mean is too far off: by more than the tolerated share of the reference, or at all when the
      reference is zero for the guard's purposes. */
  predicate MeanFails(c: Config, staged: real, reference: real) {
    if Abs(reference) < EPSILON then Abs(staged) > EPSILON
    else Abs(staged - reference) > c.maxMeanDrift * Abs(reference)
  }

  /** The same of the standard deviation. */
  predicate StddevFails(c: Config, staged: real, reference: real) {
    if Abs(reference) < EPSILON then staged > EPSILON
    else Abs(staged - reference) > c.maxStddevDrift * Abs(reference)
  }

  /** A drift exceeds the tolerance exactly when the difference exceeds that share of the reference. */
  lemma DriftExceeds(staged: real, reference: real, tolerance: real)
    requires Abs(reference) >= EPSILON
    ensures RelativeDrift(staged, reference).value > tolerance <==> Abs(staged - reference) > tolerance * Abs(reference)
  {
    QuotientAtMost(Abs(staged - reference), Abs(reference), tolerance);
  }

  // ---------------------------------------------------------------- the check

  /** A payload the check can read: a dict whose field is a non-empty list of numbers. */
  predicate Readable(field: string, payload: Value) {
    && payload.Obj? && field in payload.fields
    && payload.fields[field].Arr? && payload.fields[field].items != []
    && forall v <- payload.fields[field].items :: Numeric(v)
  }

  function Reals(items: seq<Value>): (xs: seq<real>)
    requires forall v <- items :: Numeric(v)
    ensures |xs| == |items|
  {
    if items == [] then [] else [AsReal(items[0])] + Reals(items[1..])
  }

  function Numbers(field: string, payload: Value): (xs: seq<real>)
    requires Readable(field, payload)
    ensures xs != []
  {
    Reals(payload.fields[field].items)
  }

  predicate Passes(c: Config, root: real -> real, staged: Value, reference: Value) {
    && Readable(c.field, staged) && Readable(c.field, reference)
    && var xs, ys := Numbers(c.field, staged), Numbers(c.field, reference);
    && |xs| >= c.minSampleSize
    && !MeanFails(c, Mean(xs), Mean(ys))
    && !StddevFails(c, Stddev(root, xs), Stddev(root, ys))
  }

  datatype Source = Staged | Reference

  /** `_extract_values`: the first payload that cannot be read is the one named in the failure. */
  method ExtractValues(c: Config, staged: Value, reference: Value)
      returns (unreadable: Option<Source>, stagedVals: seq<real>, referenceVals: seq<real>)
    ensures unreadable.None? <==> Readable(c.field, staged) && Readable(c.field, reference)
    ensures unreadable == Some(Staged) <==> !Readable(c.field, staged)
    ensures unreadable.None? ==>
      stagedVals == Numbers(c.field, staged) && referenceVals == Numbers(c.field, reference)
  {
    stagedVals, referenceVals := [], [];
    var payloads := [(Staged, staged), (Reference, reference)];
    for i := 0 to 2
      invariant i >= 1 ==> Readable(c.field, staged)
      invariant i >= 2 ==> Readable(c.field, reference)
    {
      var source, payload := payloads[i].0, payloads[i].1;
      if !payload.Obj? || c.field !in payload.fields {
        return Some(source), [], [];
      }
      var values := payload.fields[c.field];
      if !values.Arr? || values.items == [] {
        return Some(source), [], [];
      }
      var nonNumeric := false;
      for j := 0 to |values.items|
        invariant nonNumeric <==> exists v <- values.items[..j] :: !Numeric(v)
      {
        assert values.items[..j + 1] == values.items[..j] + [values.items[j]];
        nonNumeric := nonNumeric || !Numeric(values.items[j]);
      }
      assert values.items[..|values.items|] == values.items;
      if nonNumeric {
        return Some(source), [], [];
      }
    }
    return None, Numbers(c.field, staged), Numbers(c.field, reference);
  }

  datatype Failure = MeanDrift | StddevDrift

  /** The two drift checks of `check`, on the four statistics: each adds its failure to the list. */
  method Compare(c: Config, stagedMean: real, referenceMean: real, stagedStddev: real, referenceStddev: real)
      returns (failures: seq<Failure>)
    ensures MeanDrift in failures <==> MeanFails(c, stagedMean, referenceMean)
    ensures StddevDrift in failures <==> StddevFails(c, stagedStddev, referenceStddev)
    ensures failures == [] <==>
      !MeanFails(c, stagedMean, referenceMean) && !StddevFails(c, stagedStddev, referenceStddev)
  {
    failures := [];
    if Abs(referenceMean) >= EPSILON {
      DriftExceeds(stagedMean, referenceMean, c.maxMeanDrift);
    }
    if Abs(referenceStddev) >= EPSILON {
      DriftExceeds(stagedStddev, referenceStddev, c.maxStddevDrift);
    }
    var meanDrift := RelativeDrift(stagedMean, referenceMean);
    if meanDrift.None? {
      if Abs(stagedMean) > EPSILON {
        failures := failures + [MeanDrift];
      }
    } else if meanDrift.value > c.maxMeanDrift {
      failures := failures + [MeanDrift];
    }

    var stddevDrift := RelativeDrift(stagedStddev, referenceStddev);
    if stddevDrift.None? {
      if stagedStddev > EPSILON {
        failures := failures + [StddevDrift];
      }
    } else if stddevDrift.value > c.maxStddevDrift {
      failures := failures + [StddevDrift];
    }
  }

  /** `check`: the guards, then the list of failures. */
  method Check(c: Config, root: real -> real, staged: Value, reference: Value)
      returns (result: AssertionResult, failures: seq<Failure>)
    ensures result.name == NAME && result.severity == Warn
    ensures result.status == if Passes(c, root, staged, reference) then Passed else Failed
    ensures result.status.Passed? ==>
      && Readable(c.field, staged) && Readable(c.field, reference)
      && |staged.fields[c.field].items| >= c.minSampleSize && failures == []
    ensures result.status.Failed? && Readable(c.field, staged) && Readable(c.field, reference) ==>
      |staged.fields[c.field].items| < c.minSampleSize || failures != []
    ensures
      (Readable(c.field, staged) && Readable(c.field, reference) && |Numbers(c.field, staged)| >= c.minSampleSize) ==>
        var xs, ys := Numbers(c.field, staged), Numbers(c.field, reference);
        && (MeanDrift in failures <==> MeanFails(c, Mean(xs), Mean(ys)))
        && (StddevDrift in failures <==> StddevFails(c, Stddev(root, xs), Stddev(root, ys)))
  {
    failures := [];
    var unreadable, stagedVals, referenceVals := ExtractValues(c, staged, reference);
    if unreadable.Some? {
      result := Result(NAME, Failed, Warn, "payload cannot be read");
      return;
    }
    if |stagedVals| < c.minSampleSize {
      result := Result(NAME, Failed, Warn, "staged sample too small");
      return;
    }
    var stagedMean, referenceMean := Mean(stagedVals), Mean(referenceVals);
    var stagedStddev, referenceStddev := Stddev(root, stagedVals), Stddev(root, referenceVals);

    failures := Compare(c, stagedMean, referenceMean, stagedStddev, referenceStddev);
    if failures == [] {
      result := Result(NAME, Passed, Warn, "within tolerance");
    } else {
      result := Result(NAME, Failed, Warn, "distribution check failed");
    }
  }

  function AsAssertion(c: Config, root: real -> real): Assertion {
    Assertion(NAME, Warn, (staged, reference) => Checked(
      if Passes(c, root, staged, reference) then Result(NAME, Passed, Warn, "")
      else Result(NAME, Failed, Warn, "distribution check failed")))
  }

  /** The assertion of a run gives the verdict of `check`. */
  lemma AssertionIsCheck(c: Config, root: real -> real, staged: Value, reference: Value)
    ensures var result := RunOne(AsAssertion(c, root), staged, reference);
      && result.Some? && result.value.name == NAME && result.value.severity == Warn
      && result.value.status == if Passes(c, root, staged, reference) then Passed else Failed
  {
  }

  // ---------------------------------------------------------------- what the statistics are

  /** The number a payload value stands for. */
  predicate Stands(v: Value, x: real) {
    match v
    case Num(y) => x == y
    case Int(n) => x == n as real
    case Bool(b) => x == if b then 1.0 else 0.0
    case _ => false
  }

  /** What the check reads: a non-empty list under the field whose items all stand for numbers, and
      then those numbers in order. */
  lemma NumbersAreRead(field: string, payload: Value, xs: seq<real>)
    ensures Readable(field, payload) && Numbers(field, payload) == xs <==>
      && payload.Obj? && field in payload.fields && payload.fields[field].Arr? && xs != []
      && var items := payload.fields[field].items;
      |items| == |xs| && forall i | 0 <= i < |xs| :: Stands(items[i], xs[i])
  {
    if payload.Obj? && field in payload.fields && payload.fields[field].Arr? {
      ReadInOrder(payload.fields[field].items, xs);
    }
  }

  lemma {:induction false} ReadInOrder(items: seq<Value>, xs: seq<real>)
    ensures (forall v <- items :: Numeric(v)) && Reals(items) == xs <==>
      |items| == |xs| && forall i | 0 <= i < |xs| :: Stands(items[i], xs[i])
  {
    if items != [] && xs != [] {
      ReadInOrder(items[1..], xs[1..]);
      assert items == [items[0]] + items[1..] && xs == [xs[0]] + xs[1..];
      assert Stands(items[0], xs[0]) <==> Numeric(items[0]) && AsReal(items[0]) == xs[0];
    }
  }

  /** The mean and the population variance of two values. */
  lemma StatisticsOfTwo(a: real, b: real)
    ensures Mean([a, b]) == (a + b) / 2.0
    ensures Variance([a, b]) == ((a - b) / 2.0) * ((a - b) / 2.0)
  {
    SumOfTwo(IDENTITY, a, b);
    var mu := Mean([a, b]);
    assert mu == (a + b) / 2.0;
    SumOfTwo(SquareFrom(mu), a, b);
    HalfDistance(a, b, mu);
  }

  lemma SumOfTwo(f: real -> real, a: real, b: real)
    ensures SumOf(f, [a, b]) == f(a) + f(b)
  {
    assert [a, b][1..] == [b];
    SumOfOne(f, b);
    assert SumOf(f, [a, b]) == f([a, b][0]) + SumOf(f, [a, b][1..]);
  }

  lemma SumOfOne(f: real -> real, a: real)
    ensures SumOf(f, [a]) == f(a)
  {
    assert [a][1..] == [];
    assert SumOf(f, [a]) == f([a][0]) + SumOf(f, [a][1..]);
  }

  lemma HalfDistance(a: real, b: real, mu: real)
    requires mu == (a + b) / 2.0
    ensures ((a - mu) * (a - mu) + (b - mu) * (b - mu)) / 2.0 == ((a - b) / 2.0) * ((a - b) / 2.0)
  {
    var h := (a - b) / 2.0;
    assert a - mu == h && b - mu == -h;
    assert (-h) * (-h) == h * h;
  }

  /** The variance is that of the population: repeating a sample changes nothing. A single value has
      no deviation. */
  lemma RepeatingChangesNothing(root: real -> real, xs: seq<real>, x: real)
    requires xs != []
    ensures Mean(xs + xs) == Mean(xs) && Variance(xs + xs) == Variance(xs)
    ensures Mean([x]) == x && Stddev(root, [x]) == 0.0
  {
    SumOfSplit(IDENTITY, xs, xs);
    TwiceOver(SumOf(IDENTITY, xs), SumOf(IDENTITY, xs + xs), |xs| as real);
    var g := SquareFrom(Mean(xs));
    SumOfSplit(g, xs, xs);
    TwiceOver(SumOf(g, xs), SumOf(g, xs + xs), |xs| as real);
    SumOfOne(IDENTITY, x);
    SumOfOne(SquareFrom(x), x);
  }

  lemma TwiceOver(s: real, t: real, n: real)
    requires n > 0.0 && t == s + s
    ensures t / (n + n) == s / n
  {
    QuotientTimes(s, n);
    QuotientIs(t, n + n, s / n);
  }

  /** Mean acceptance: within the tolerated share of the reference on either side, and only zero, to
      1e-10, beside a reference that is zero to 1e-10. */
  lemma MeanBand(c: Config, s: real, r: real)
    ensures r >= 0.0000000001 ==>
      (!MeanFails(c, s, r) <==> r - c.maxMeanDrift * r <= s <= r + c.maxMeanDrift * r)
    ensures r <= -0.0000000001 ==>
      (!MeanFails(c, s, r) <==> r + c.maxMeanDrift * r <= s <= r - c.maxMeanDrift * r)
    ensures -0.0000000001 < r < 0.0000000001 ==> (!MeanFails(c, s, r) <==> -0.0000000001 <= s <= 0.0000000001)
  {
    if r <= -0.0000000001 {
      assert c.maxMeanDrift * (-r) == -(c.maxMeanDrift * r);
    }
  }

  /** The same of two standard deviations; beside one that is zero to 1e-10 the staged one must be. */
  lemma StddevAcceptance(c: Config, s: real, r: real)
    requires s >= 0.0 && r >= 0.0
    ensures r >= 0.0000000001 ==>
      (!StddevFails(c, s, r) <==> r - c.maxStddevDrift * r <= s <= r + c.maxStddevDrift * r)
    ensures r < 0.0000000001 ==> (!StddevFails(c, s, r) <==> s <= 0.0000000001)
  {
  }

  // ---------------------------------------------------------------- permutation blindness

  lemma {:induction false} SumOfSplit(f: real -> real, a: seq<real>, b: seq<real>)
    ensures SumOf(f, a + b) == SumOf(f, a) + SumOf(f, b)
  {
    if a == [] {
      assert a + b == b;
    } else {
      SumOfSplit(f, a[1..], b);
      assert (a + b)[1..] == a[1..] + b;
    }
  }

  lemma {:induction false} SumOfIgnoresOrder(f: real -> real, a: seq<real>, b: seq<real>)
    requires multiset(a) == multiset(b)
    ensures SumOf(f, a) == SumOf(f, b)
    ensures |a| == |b|
  {
    assert |a| == |multiset(a)| == |multiset(b)| == |b|;
    if a != [] {
      var before, after := TakeOut(a, b);
      SumOfIgnoresOrder(f, a[1..], before + after);
      SumOfSplit(f, before, after);
      SumOfSplit(f, before, [a[0]] + after);
      assert ([a[0]] + after)[1..] == after;
    }
  }

  lemma StatisticsIgnoreOrder(root: real -> real, a: seq<real>, b: seq<real>)
    requires a != [] && b != [] && multiset(a) == multiset(b)
    ensures Mean(a) == Mean(b) && Stddev(root, a) == Stddev(root, b)
  {
    SumOfIgnoresOrder(IDENTITY, a, b);
    SumOfIgnoresOrder(SquareFrom(Mean(a)), a, b);
  }

  lemma {:induction false} RealsOfConcat(a: seq<Value>, b: seq<Value>)
    requires forall v <- a + b :: Numeric(v)
    ensures (forall v <- a :: Numeric(v)) && (forall v <- b :: Numeric(v))
    ensures Reals(a + b) == Reals(a) + Reals(b)
  {
    assert (forall v <- a :: v in a + b) && (forall v <- b :: v in a + b);
    if a == [] {
      assert a + b == b;
    } else {
      assert (a + b)[1..] == a[1..] + b;
      RealsOfConcat(a[1..], b);
    }
  }

  /** Equal multisets: the first element of one can be taken out of the other. */
  lemma TakeOut<T>(a: seq<T>, b: seq<T>) returns (before: seq<T>, after: seq<T>)
    requires a != [] && multiset(a) == multiset(b)
    ensures b == before + ([a[0]] + after)
    ensures multiset(a[1..]) == multiset(before + after)
  {
    assert a[0] in multiset(b);
    var i :| 0 <= i < |b| && b[i] == a[0];
    before, after := b[..i], b[i + 1..];
    assert b == before + ([a[0]] + after);
    assert multiset(a) == multiset{a[0]} + multiset(a[1..]) by { assert a == [a[0]] + a[1..]; }
    assert multiset(a[1..]) == multiset(a) - multiset{a[0]};
    assert multiset(before + after) == multiset(b) - multiset{a[0]};
  }

  lemma {:induction false} RealsIgnoreOrder(a: seq<Value>, b: seq<Value>)
    requires multiset(a) == multiset(b)
    requires forall v <- a :: Numeric(v)
    ensures forall v <- b :: Numeric(v)
    ensures multiset(Reals(a)) == multiset(Reals(b))
  {
    forall v <- b ensures v in a {
      assert v in multiset(b);
    }
    if a == [] {
      assert |multiset(b)| == 0;
    } else {
      var before, after := TakeOut(a, b);
      RealsIgnoreOrder(a[1..], before + after);
      RealsOfConcat(before, [a[0]] + after);
      RealsOfConcat(before, after);
      assert ([a[0]] + after)[1..] == after;
    }
  }

  lemma ReorderedIsReadable(field: string, a: Value, b: Value)
    requires Readable(field, a)
    requires b.Obj? && field in b.fields && b.fields[field].Arr?
    requires multiset(a.fields[field].items) == multiset(b.fields[field].items)
    ensures Readable(field, b)
    ensures multiset(Numbers(field, a)) == multiset(Numbers(field, b))
  {
    var xs, ys := a.fields[field].items, b.fields[field].items;
    assert xs[0] in multiset(ys);
    RealsIgnoreOrder(xs, ys);
  }

  /** A list field under `field`. */
  predicate HasList(field: string, payload: Value) {
    payload.Obj? && field in payload.fields && payload.fields[field].Arr?
  }

  /** The drifts that `check` computes and reports; None when a payload cannot be read. */
  function MeanDriftOf(c: Config, staged: Value, reference: Value): Option<Option<real>> {
    if Readable(c.field, staged) && Readable(c.field, reference)
    then Some(RelativeDrift(Mean(Numbers(c.field, staged)), Mean(Numbers(c.field, reference))))
    else None
  }

  function StddevDriftOf(c: Config, root: real -> real, staged: Value, reference: Value): Option<Option<real>> {
    if Readable(c.field, staged) && Readable(c.field, reference)
    then Some(RelativeDrift(Stddev(root, Numbers(c.field, staged)), Stddev(root, Numbers(c.field, reference))))
    else None
  }

  /** The documented limitation: however the two value lists are reordered, the verdict and both
      drifts are the same, so a swap that keeps the multiset of values is invisible. */
  lemma {:induction false} VerdictIgnoresOrder(c: Config, root: real -> real, s1: Value, r1: Value, s2: Value, r2: Value)
    requires HasList(c.field, s1) && HasList(c.field, r1) && HasList(c.field, s2) && HasList(c.field, r2)
    requires multiset(s1.fields[c.field].items) == multiset(s2.fields[c.field].items)
    requires multiset(r1.fields[c.field].items) == multiset(r2.fields[c.field].items)
    ensures Passes(c, root, s1, r1) <==> Passes(c, root, s2, r2)
    ensures MeanDriftOf(c, s1, r1) == MeanDriftOf(c, s2, r2)
    ensures StddevDriftOf(c, root, s1, r1) == StddevDriftOf(c, root, s2, r2)
  {
    if Readable(c.field, s1) && Readable(c.field, r1) {
      ReorderedIsReadable(c.field, s1, s2);
      ReorderedIsReadable(c.field, r1, r2);
      StatisticsIgnoreOrder(root, Numbers(c.field, s1), Numbers(c.field, s2));
      StatisticsIgnoreOrder(root, Numbers(c.field, r1), Numbers(c.field, r2));
      assert |multiset(Numbers(c.field, s1))| == |multiset(Numbers(c.field, s2))|;
    } else if Readable(c.field, s2) && Readable(c.field, r2) {
      ReorderedIsReadable(c.field, s2, s1);
      ReorderedIsReadable(c.field, r2, r1);
      assert false;
    }
  }

  // ---------------------------------------------------------------- scale and shift

  function Apply(h: real -> real, xs: seq<real>): (ys: seq<real>)
    ensures |ys| == |xs|
  {
    if xs == [] then [] else [h(xs[0])] + Apply(h, xs[1..])
  }

  function Line(k: real, c: real): real -> real {
    x => k * x + c
  }

  /** Every value scaled by k and shifted by c. */
  function Affine(k: real, c: real, xs: seq<real>): (ys: seq<real>)
    ensures |ys| == |xs|
  {
    Apply(Line(k, c), xs)
  }

  lemma {:induction false} SumOfAffine(k: real, c: real, xs: seq<real>)
    ensures SumOf(IDENTITY, Affine(k, c, xs)) == k * SumOf(IDENTITY, xs) + c * |xs| as real
  {
    if xs != [] {
      SumOfAffine(k, c, xs[1..]);
      OneMore(k, c, xs[0], SumOf(IDENTITY, xs[1..]), |xs[1..]| as real);
    }
  }

  lemma OneMore(k: real, c: real, x: real, total: real, n: real)
    ensures (k * x + c) + (k * total + c * n) == k * (x + total) + c * (n + 1.0)
  {
  }

  ghost predicate Scales(f: real -> real, g: real -> real, h: real -> real, kk: real) {
    forall x :: f(h(x)) == kk * g(x)
  }

  ghost predicate SumsRelate(f: real -> real, g: real -> real, kk: real, xs: seq<real>, ys: seq<real>) {
    SumOf(f, ys) == kk * SumOf(g, xs)
  }

  lemma ScaledTotal(kk: real, x: real, y: real, total: real, scaled: real)
    requires y == kk * x && scaled == kk * total
    ensures y + scaled == kk * (x + total)
  {
  }

  lemma ScaleAt(f: real -> real, g: real -> real, h: real -> real, kk: real, x: real)
    requires Scales(f, g, h, kk)
    ensures f(h(x)) == kk * g(x)
  {
  }

  /** If h makes each term kk times what it was, it makes the sum so. */
  lemma {:induction false} SumsScale(f: real -> real, g: real -> real, h: real -> real, kk: real, xs: seq<real>)
    requires Scales(f, g, h, kk)
    ensures SumsRelate(f, g, kk, xs, Apply(h, xs))
  {
    var ys := Apply(h, xs);
    if xs == [] {
      assert ys == [];
    } else {
      SumsScale(f, g, h, kk, xs[1..]);
      assert ys[0] == h(xs[0]) && ys[1..] == Apply(h, xs[1..]);
      ScaleAt(f, g, h, kk, xs[0]);
      ScaledTotal(kk, g(xs[0]), f(ys[0]), SumOf(g, xs[1..]), SumOf(f, ys[1..]));
    }
  }

  lemma TermScales(x: real, k: real, kk: real, c: real, mu: real, nu: real)
    requires kk == k * k && nu == k * mu + c
    ensures SquareFrom(nu)(Line(k, c)(x)) == kk * SquareFrom(mu)(x)
  {
    SquareStep(x, mu, k * x + c, nu, k, kk, c);
  }

  lemma TermsScale(k: real, kk: real, c: real, mu: real, nu: real, f: real -> real, g: real -> real, h: real -> real)
    requires kk == k * k && nu == k * mu + c
    requires f == SquareFrom(nu) && g == SquareFrom(mu) && h == Line(k, c)
    ensures Scales(f, g, h, kk)
  {
    forall x ensures f(h(x)) == kk * g(x) {
      TermScales(x, k, kk, c, mu, nu);
    }
  }

  lemma AffineMean(k: real, c: real, xs: seq<real>)
    requires xs != []
    ensures Mean(Affine(k, c, xs)) == k * Mean(xs) + c
  {
    SumOfAffine(k, c, xs);
    AffineQuotient(SumOf(IDENTITY, Affine(k, c, xs)), SumOf(IDENTITY, xs), |xs| as real, k, c);
  }

  lemma ScaledVariance(kk: real, xs: seq<real>, ys: seq<real>)
    requires xs != [] && |xs| == |ys| && SumsRelate(SquareFrom(Mean(ys)), SquareFrom(Mean(xs)), kk, xs, ys)
    ensures Variance(ys) == kk * Variance(xs)
  {
    ScaledQuotient(SumOf(SquareFrom(Mean(ys)), ys), SumOf(SquareFrom(Mean(xs)), xs), |xs| as real, kk);
  }

  lemma SquaresScale(k: real, kk: real, c: real, xs: seq<real>)
    requires xs != [] && kk == k * k
    ensures Scales(SquareFrom(Mean(Affine(k, c, xs))), SquareFrom(Mean(xs)), Line(k, c), kk)
  {
    AffineMean(k, c, xs);
    var mu, nu := Mean(xs), Mean(Affine(k, c, xs));
    TermsScale(k, kk, c, mu, nu, SquareFrom(nu), SquareFrom(mu), Line(k, c));
  }

  /** If h makes each squared deviation kk times what it was, it makes the variance so. */
  lemma VarianceScales(h: real -> real, kk: real, xs: seq<real>, ys: seq<real>)
    requires xs != [] && ys == Apply(h, xs) && Scales(SquareFrom(Mean(ys)), SquareFrom(Mean(xs)), h, kk)
    ensures Variance(ys) == kk * Variance(xs)
  {
    SumsScale(SquareFrom(Mean(ys)), SquareFrom(Mean(xs)), h, kk, xs);
    ScaledVariance(kk, xs, ys);
  }

  lemma AffineVariance(k: real, kk: real, c: real, xs: seq<real>)
    requires xs != [] && kk == k * k
    ensures Variance(Affine(k, c, xs)) == kk * Variance(xs)
  {
    SquaresScale(k, kk, c, xs);
    VarianceScales(Line(k, c), kk, xs, Affine(k, c, xs));
  }

  lemma {:induction false} SquaresNonnegative(mu: real, xs: seq<real>)
    ensures SumOf(SquareFrom(mu), xs) >= 0.0
  {
    if xs != [] {
      SquaresNonnegative(mu, xs[1..]);
      SquareNonnegative(xs[0] - mu);
    }
  }

  lemma VarianceNonnegative(xs: seq<real>)
    requires xs != []
    ensures Variance(xs) >= 0.0
  {
    SquaresNonnegative(Mean(xs), xs);
    QuotientNonnegative(SumOf(SquareFrom(Mean(xs)), xs), |xs| as real);
  }

  /** The square of `_stddev` is the variance, also for a single value. */
  lemma StddevSquared(root: real -> real, xs: seq<real>)
    requires IsRoot(root) && xs != []
    ensures Stddev(root, xs) >= 0.0
    ensures Stddev(root, xs) * Stddev(root, xs) == Variance(xs)
  {
    VarianceNonnegative(xs);
    if |xs| == 1 {
      assert xs[1..] == [];
      assert SumOf(IDENTITY, xs) == xs[0];
      assert Mean(xs) == xs[0];
      assert SumOf(SquareFrom(xs[0]), xs) == 0.0;
    }
  }

  /** The drift of a multiple, away from the zero guard. */
  lemma DriftOfMultiple(s: real, k: real, r: real)
    requires s == k * r && Abs(r) >= EPSILON
    ensures RelativeDrift(s, r) == Some(Abs(k - 1.0))
  {
    Distribute(k, 1.0, r);
    AbsOfProduct(k - 1.0, r);
    QuotientIs(Abs(s - r), Abs(r), Abs(k - 1.0));
  }

  lemma StddevOfScaledVariance(root: real -> real, k: real, kk: real, xs: seq<real>, ys: seq<real>)
    requires IsRoot(root) && xs != [] && ys != [] && kk == k * k
    requires Variance(ys) == kk * Variance(xs)
    ensures Stddev(root, ys) == Abs(k) * Stddev(root, xs)
  {
    StddevSquared(root, xs);
    StddevSquared(root, ys);
    RootOfMultiple(Stddev(root, xs), Stddev(root, ys), k, kk, Variance(xs));
  }

  lemma StddevOfMultiple(root: real -> real, k: real, c: real, xs: seq<real>)
    requires IsRoot(root) && xs != []
    ensures Stddev(root, Affine(k, c, xs)) == Abs(k) * Stddev(root, xs)
  {
    var kk := k * k;
    AffineVariance(k, kk, c, xs);
    StddevOfScaledVariance(root, k, kk, xs, Affine(k, c, xs));
  }

  /** Where the reference is away from the zero guard, the relative drift is d. */
  ghost predicate DriftIs(s: real, r: real, d: real) {
    Abs(r) >= EPSILON ==> RelativeDrift(s, r) == Some(d)
  }

  ghost predicate Multiple(s: real, m: real, r: real) {
    s == m * r
  }

  lemma MultipleDrifts(s: real, m: real, r: real)
    requires Multiple(s, m, r)
    ensures DriftIs(s, r, Abs(m - 1.0))
  {
    if Abs(r) >= EPSILON {
      DriftOfMultiple(s, m, r);
    }
  }

  lemma MeanIsMultiple(k: real, reference: seq<real>)
    requires reference != []
    ensures Multiple(Mean(Affine(k, 0.0, reference)), k, Mean(reference))
  {
    AffineMean(k, 0.0, reference);
  }

  lemma StddevIsMultiple(root: real -> real, k: real, reference: seq<real>)
    requires IsRoot(root) && reference != []
    ensures Multiple(Stddev(root, Affine(k, 0.0, reference)), Abs(k), Stddev(root, reference))
  {
    StddevOfMultiple(root, k, 0.0, reference);
  }

  /** Scaling every value by k is seen as mean drift |k-1| and std-dev drift ||k|-1|. */
  lemma {:induction false} ScaleLaw(root: real -> real, k: real, reference: seq<real>)
    requires IsRoot(root) && reference != []
    ensures DriftIs(Mean(Affine(k, 0.0, reference)), Mean(reference), Abs(k - 1.0))
    ensures DriftIs(Stddev(root, Affine(k, 0.0, reference)), Stddev(root, reference), Abs(Abs(k) - 1.0))
  {
    MeanIsMultiple(k, reference);
    MultipleDrifts(Mean(Affine(k, 0.0, reference)), k, Mean(reference));
    StddevIsMultiple(root, k, reference);
    MultipleDrifts(Stddev(root, Affine(k, 0.0, reference)), Abs(k), Stddev(root, reference));
  }

  /** Shifting every value by the same amount never fails the std-dev part, whatever the tolerance
      and also at a constant reference; only the mean part can see it. */
  lemma {:induction false} ShiftLaw(c: Config, root: real -> real, shift: real, reference: seq<real>)
    requires c.Valid() && IsRoot(root) && reference != []
    ensures var staged := Affine(1.0, shift, reference);
      && !StddevFails(c, Stddev(root, staged), Stddev(root, reference))
      && Mean(staged) == Mean(reference) + shift
  {
    AffineMean(1.0, shift, reference);
    StddevOfMultiple(root, 1.0, shift, reference);
    StddevSquared(root, reference);
    if Stddev(root, reference) >= EPSILON {
      DriftOfMultiple(Stddev(root, Affine(1.0, shift, reference)), 1.0, Stddev(root, reference));
    }
  }

  lemma BandOfStddevs(c: Config, s: real, r: real, v: real, w: real)
    requires c.Valid() && s >= 0.0 && r >= EPSILON && s * s == v && r * r == w
    ensures var t := c.maxStddevDrift;
      !StddevFails(c, s, r) <==>
        && v <= (1.0 + t) * (1.0 + t) * w
        && (t <= 1.0 ==> (1.0 - t) * (1.0 - t) * w <= v)
  {
    SquaredBand(s, r, c.maxStddevDrift);
  }

  /** Std-dev acceptance is a band on the variance. */
  lemma StddevBand(c: Config, root: real -> real, staged: seq<real>, reference: seq<real>)
    requires c.Valid() && IsRoot(root) && staged != [] && reference != []
    requires Stddev(root, reference) >= EPSILON
    ensures var t, v, w := c.maxStddevDrift, Variance(staged), Variance(reference);
      !StddevFails(c, Stddev(root, staged), Stddev(root, reference)) <==>
        && v <= (1.0 + t) * (1.0 + t) * w
        && (t <= 1.0 ==> (1.0 - t) * (1.0 - t) * w <= v)
  {
    StddevSquared(root, staged);
    StddevSquared(root, reference);
    BandOfStddevs(c, Stddev(root, staged), Stddev(root, reference), Variance(staged), Variance(reference));
  }
}
