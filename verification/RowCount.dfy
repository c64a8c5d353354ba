/** assertions_library/row_count_delta.py. */
module RowCount {
  import opened Wrappers
  import opened Json
  import opened Models
  import opened RealMath

  const NAME := "row_count_delta"

  datatype Threshold = Absolute(maxDelta: int) | Percent(maxPct: real)

  datatype Config = Config(threshold: Threshold, allowEmpty: bool, rowCountKey: string) {
    /** What the constructor accepts; the datatype makes the two modes exclusive. */
    predicate Valid() {
      match threshold
      case Absolute(d) => d >= 0
      case Percent(p) => 0.0 <= p <= 100.0
    }
  }

  /** The count a payload carries, when it is a dict holding an int under the key. */
  function CountOf(key: string, payload: Value): Option<int> {
    if payload.Obj? && key in payload.fields && Integral(payload.fields[key])
    then Some(AsInt(payload.fields[key]))
    else None
  }

  /** `_check_percentage`. */
  predicate PercentPasses(maxPct: real, staged: int, reference: int) {
    if reference == 0 then staged == 0
    else (AbsInt(staged - reference) as real / reference as real) * 100.0 <= maxPct
  }

  predicate AbsolutePasses(maxDelta: int, staged: int, reference: int) {
    AbsInt(staged - reference) <= maxDelta
  }

  /** `check` on extracted counts: the zero-row guard, then the configured mode. */
  predicate CountsPass(c: Config, staged: int, reference: int) {
    if staged == 0 && !c.allowEmpty then false
    else
      match c.threshold
      case Absolute(d) => AbsolutePasses(d, staged, reference)
      case Percent(p) => PercentPasses(p, staged, reference)
  }

  predicate Passes(c: Config, staged: Value, reference: Value) {
    match (CountOf(c.rowCountKey, staged), CountOf(c.rowCountKey, reference))
    case (Some(s), Some(r)) => CountsPass(c, s, r)
    case _ => false
  }

  function AsAssertion(c: Config): Assertion {
    Assertion(NAME, Warn, (staged, reference) => Checked(
      if Passes(c, staged, reference) then Result(NAME, Passed, Warn, "")
      else Result(NAME, Failed, Warn, "row count delta")))
  }

  // ---------------------------------------------------------------- what the verdict accepts

  lemma FractionBound(delta: real, reference: real, pct: real)
    requires reference > 0.0
    ensures (delta / reference) * 100.0 <= pct <==> delta <= reference * (pct / 100.0)
  {
    QuotientAtMost(delta, reference, pct / 100.0);
    assert reference * (pct / 100.0) == (pct / 100.0) * reference;
  }

  lemma NegativeFraction(delta: real, reference: real)
    requires reference < 0.0 && delta >= 0.0
    ensures delta / reference <= 0.0
  {
    var f := delta / reference;
    assert delta == f * reference;
    if f > 0.0 {
      MulLt(0.0, f, -reference);
    }
  }

  /** Percentage mode for every pair of counts: a band around a positive reference, zero only at a
      zero reference, and no bound at all below zero. */
  lemma PercentAcceptance(maxPct: real, staged: int, reference: int)
    requires 0.0 <= maxPct <= 100.0
    ensures reference > 0 ==>
      (PercentPasses(maxPct, staged, reference) <==>
        reference as real * (1.0 - maxPct / 100.0) <= staged as real <= reference as real * (1.0 + maxPct / 100.0))
    ensures reference == 0 ==> (PercentPasses(maxPct, staged, reference) <==> staged == 0)
    ensures reference < 0 ==> PercentPasses(maxPct, staged, reference)
  {
    var d := AbsInt(staged - reference) as real;
    var r := reference as real;
    if reference > 0 {
      FractionBound(d, r, maxPct);
      var q := maxPct / 100.0;
      assert r * (1.0 - q) == r - r * q && r * (1.0 + q) == r + r * q;
    } else if reference < 0 {
      NegativeFraction(d, r);
    }
  }

  /** An empty load passes exactly when it is allowed and the reference is within the absolute
      threshold of zero; or, in percentage mode, not positive, or the percentage is 100. */
  lemma EmptyLoad(c: Config, reference: int)
    requires c.Valid()
    ensures CountsPass(c, 0, reference) <==>
      && c.allowEmpty
      && match c.threshold
         case Absolute(d) => -d <= reference <= d
         case Percent(p) => reference <= 0 || p == 100.0
  {
    if c.threshold.Percent? {
      var r, p := reference as real, c.threshold.maxPct;
      PercentAcceptance(p, 0, reference);
      if reference > 0 {
        assert r * (1.0 - p / 100.0) <= 0.0 <==> p == 100.0 by {
          if p < 100.0 {
            MulLt(0.0, 1.0 - p / 100.0, r);
          }
        }
        MulLe(0.0, 1.0 + p / 100.0, r);
      }
    }
  }

  /** What counts as a row count: an integer under the key, a boolean standing for 0 or 1. */
  lemma CountIs(key: string, payload: Value, n: int)
    ensures CountOf(key, payload) == Some(n) <==>
      && payload.Obj? && key in payload.fields
      && match payload.fields[key]
         case Int(k) => n == k
         case Bool(b) => n == if b then 1 else 0
         case _ => false
  {
  }

  /** Acceptance of two payloads, for every pair of counts: an empty load needs `allow_empty`; then
      in absolute mode the staged count is within the threshold of the reference, and in percentage
      mode it lies in the band of a positive reference, is zero at zero, and is anything below. */
  lemma Acceptance(c: Config, staged: Value, reference: Value, n: int, m: int)
    requires CountOf(c.rowCountKey, staged) == Some(n) && CountOf(c.rowCountKey, reference) == Some(m)
    requires match c.threshold case Absolute(_) => true case Percent(p) => 0.0 <= p <= 100.0
    ensures Passes(c, staged, reference) <==>
      && (n != 0 || c.allowEmpty)
      && match c.threshold
         case Absolute(d) => m - d <= n <= m + d
         case Percent(p) =>
           if m > 0 then m as real * (1.0 - p / 100.0) <= n as real <= m as real * (1.0 + p / 100.0)
           else m == 0 ==> n == 0
  {
    if c.threshold.Percent? {
      PercentAcceptance(c.threshold.maxPct, n, m);
    }
  }

  /** Without a count on either side nothing passes; an unchanged positive count always does. */
  lemma UnchangedCountPasses(c: Config, staged: Value, reference: Value)
    ensures CountOf(c.rowCountKey, staged).None? || CountOf(c.rowCountKey, reference).None? ==> !Passes(c, staged, reference)
    ensures c.Valid() && CountOf(c.rowCountKey, staged).Some? && CountOf(c.rowCountKey, staged).value > 0 ==>
      Passes(c, staged, staged)
  {
    var count := CountOf(c.rowCountKey, staged);
    if c.Valid() && count.Some? && count.value > 0 {
      Acceptance(c, staged, staged, count.value, count.value);
      if c.threshold.Percent? {
        var x, q := count.value as real, c.threshold.maxPct / 100.0;
        ProductNonnegative(x, q);
        assert x * (1.0 - q) == x - x * q && x * (1.0 + q) == x + x * q;
      }
    }
  }

  /** The assertion of a run gives the verdict of `check`. */
  lemma AssertionIsCheck(c: Config, staged: Value, reference: Value)
    ensures var result := RunOne(AsAssertion(c), staged, reference);
      && result.Some? && result.value.name == NAME && result.value.severity == Warn
      && result.value.status == if Passes(c, staged, reference) then Passed else Failed
  {
  }
}
