/** assertions_library/fx_reconciliation.py. */
module FxReconciliation {
  import opened Json
  import opened Models

  const NAME := "fx_rate_reconciliation"

  datatype Config = Config(tolerance: real, requiredKeys: set<string>) {
    /** What the constructor accepts. */
    predicate Valid() {
      tolerance >= 0.0
    }
  }

  datatype Mismatch =
    | NonNumeric(staged: Value, reference: Value)
    | Drift(stagedRate: real, referenceRate: real, delta: real)

  datatype Evidence =
    | BadInput
    | Evidence(mismatches: map<string, Mismatch>, missingInStaged: set<string>, extraInStaged: set<string>,
               requiredMissing: set<string>)

  /** Two rates are within tolerance of each other. */
  predicate WithinBand(tolerance: real, staged: Value, reference: Value)
    requires Numeric(staged) && Numeric(reference)
  {
    AsReal(reference) - tolerance <= AsReal(staged) <= AsReal(reference) + tolerance
  }

  /** Two values of one key reconcile. */
  predicate Agrees(tolerance: real, staged: Value, reference: Value) {
    Numeric(staged) && Numeric(reference) && Abs(AsReal(staged) - AsReal(reference)) <= tolerance
  }

  /** What PASSED is meant to say: flat dicts over the same keys, with every pair of rates within
      tolerance. */
  predicate Passes(tolerance: real, staged: Value, reference: Value) {
    && staged.Obj? && reference.Obj?
    && staged.fields.Keys == reference.fields.Keys
    && forall k <- staged.fields.Keys :: Agrees(tolerance, staged.fields[k], reference.fields[k])
  }

  function Join(parts: seq<string>): string {
    if parts == [] then ""
    else if |parts| == 1 then parts[0]
    else parts[0] + "; " + Join(parts[1..])
  }

  /** Of the keys done so far, exactly the offending ones are recorded, with what they show. */
  ghost predicate Recorded(
      tolerance: real, staged: map<string, Value>, reference: map<string, Value>,
      done: set<string>, mismatches: map<string, Mismatch>)
  {
    && done <= staged.Keys && done <= reference.Keys
    && (forall k :: k in mismatches <==> k in done && !Agrees(tolerance, staged[k], reference[k]))
    && (forall k <- mismatches :: Shows(mismatches[k], tolerance, staged[k], reference[k]))
  }

  /** What is recorded of a pair: the two values, staged first, or the two rates and their distance,
      which exceeds the tolerance. */
  predicate Shows(m: Mismatch, tolerance: real, staged: Value, reference: Value) {
    match m
    case NonNumeric(s, r) => s == staged && r == reference && !(Numeric(staged) && Numeric(reference))
    case Drift(s, r, delta) =>
      && Numeric(staged) && Numeric(reference)
      && s == AsReal(staged) && r == AsReal(reference) && (delta == s - r || delta == r - s) && delta >= 0.0
      && delta > tolerance
  }

  lemma RecordOne(
      tolerance: real, staged: map<string, Value>, reference: map<string, Value>,
      done: set<string>, mismatches: map<string, Mismatch>, key: string)
    requires Recorded(tolerance, staged, reference, done, mismatches) && key in staged && key in reference
    ensures var s, r := staged[key], reference[key];
      Recorded(tolerance, staged, reference, done + {key},
               if Agrees(tolerance, s, r) then mismatches else mismatches[key := MismatchOf(s, r)])
  {
  }

  lemma PassesIffNoOffender(tolerance: real, staged: Value, reference: Value, offending: set<string>)
    requires staged.Obj? && reference.Obj?
    requires forall k :: k in offending <==>
      k in staged.fields && k in reference.fields && !Agrees(tolerance, staged.fields[k], reference.fields[k])
    ensures Passes(tolerance, staged, reference) <==>
      && offending == {}
      && reference.fields.Keys - staged.fields.Keys == {} && staged.fields.Keys - reference.fields.Keys == {}
  {
    var a, b := staged.fields.Keys, reference.fields.Keys;
    if a - b == {} && b - a == {} {
      assert forall k :: k in a <==> k in b by {
        assert forall k :: k in a && k !in b ==> k in a - b;
        assert forall k :: k in b && k !in a ==> k in b - a;
      }
      assert a == b;
    }
  }

  lemma JoinIsNonempty(parts: seq<string>)
    requires parts != [] && parts[0] != ""
    ensures Join(parts) != ""
  {
  }

  /** The parts of the failure message. */
  method Explain(mismatched: bool, missing: bool, extra: bool, requiredMissing: bool) returns (parts: seq<string>)
    ensures parts == [] <==> !mismatched && !missing && !extra && !requiredMissing
    ensures parts != [] ==> parts[0] != ""
  {
    parts := [];
    if mismatched { parts := parts + ["pairs exceed tolerance"]; }
    if missing { parts := parts + ["pairs missing from staged"]; }
    if extra { parts := parts + ["unexpected pairs in staged"]; }
    if requiredMissing { parts := parts + ["required keys absent"]; }
  }

  /** The loop over the shared keys. */
  method Mismatches(tolerance: real, staged: map<string, Value>, reference: map<string, Value>)
      returns (mismatches: map<string, Mismatch>)
    ensures Recorded(tolerance, staged, reference, staged.Keys * reference.Keys, mismatches)
  {
    mismatches := map[];
    var shared := staged.Keys * reference.Keys;
    var todo := shared;
    while todo != {}
      invariant todo <= shared
      invariant Recorded(tolerance, staged, reference, shared - todo, mismatches)
      decreases todo
    {
      var key :| key in todo;
      RecordOne(tolerance, staged, reference, shared - todo, mismatches, key);
      assert shared - (todo - {key}) == shared - todo + {key};
      todo := todo - {key};
      var s, r := staged[key], reference[key];
      if !Numeric(s) || !Numeric(r) {
        mismatches := mismatches[key := NonNumeric(s, r)];
        continue;
      }
      var delta := Abs(AsReal(s) - AsReal(r));
      if delta > tolerance {
        mismatches := mismatches[key := Drift(AsReal(s), AsReal(r), delta)];
      }
    }
    assert shared - todo == shared;
  }

  /** `check`: the loop over the shared keys, the two key differences, and the verdict. Each list
      of the evidence holds exactly the offending keys, and PASSED means there is none. */
  method Check(c: Config, staged: Value, reference: Value) returns (result: AssertionResult, evidence: Evidence)
    ensures result.name == NAME && result.severity == Critical
    ensures result.status == if Passes(c.tolerance, staged, reference) then Passed else Failed
    ensures result.status.Passed? <==>
      && staged.Obj? && reference.Obj? && staged.fields.Keys == reference.fields.Keys
      && forall k <- staged.fields.Keys ::
           && Numeric(staged.fields[k]) && Numeric(reference.fields[k])
           && WithinBand(c.tolerance, staged.fields[k], reference.fields[k])
    ensures evidence.BadInput? <==> !(staged.Obj? && reference.Obj?)
    ensures evidence.Evidence? ==>
      && evidence.missingInStaged == reference.fields.Keys - staged.fields.Keys
      && evidence.extraInStaged == staged.fields.Keys - reference.fields.Keys
      && evidence.requiredMissing == c.requiredKeys - staged.fields.Keys
      && (forall k :: k in evidence.mismatches <==>
            && k in staged.fields && k in reference.fields
            && !(Numeric(staged.fields[k]) && Numeric(reference.fields[k])
                 && WithinBand(c.tolerance, staged.fields[k], reference.fields[k])))
      && (forall k <- evidence.mismatches ::
            Shows(evidence.mismatches[k], c.tolerance, staged.fields[k], reference.fields[k]))
      && (result.status.Passed? <==>
            evidence.mismatches == map[] && evidence.missingInStaged == {} && evidence.extraInStaged == {})
  {
    if !staged.Obj? {
      return Result(NAME, Failed, Critical, "staged payload must be a dict"), BadInput;
    }
    if !reference.Obj? {
      return Result(NAME, Failed, Critical, "reference payload must be a dict"), BadInput;
    }
    var stagedKeys, referenceKeys := staged.fields.Keys, reference.fields.Keys;
    var missing := referenceKeys - stagedKeys;
    var extra := stagedKeys - referenceKeys;
    var mismatches := Mismatches(c.tolerance, staged.fields, reference.fields);
    var requiredMissing := c.requiredKeys - stagedKeys;
    evidence := Evidence(mismatches, missing, extra, requiredMissing);
    PassesIffNoOffender(c.tolerance, staged, reference, mismatches.Keys);
    AcceptanceBand(c.tolerance, staged, reference);
    if mismatches == map[] && missing == {} && extra == {} {
      result := Result(NAME, Passed, Critical, "all rate pairs reconcile");
      return;
    }
    var parts := Explain(mismatches != map[], missing != {}, extra != {}, requiredMissing != {});
    JoinIsNonempty(parts);
    result := Result(NAME, Failed, Critical, Join(parts));
  }

  function MismatchOf(s: Value, r: Value): Mismatch {
    if !Numeric(s) || !Numeric(r) then NonNumeric(s, r)
    else Drift(AsReal(s), AsReal(r), Abs(AsReal(s) - AsReal(r)))
  }

  /** The check as an assertion of a run. */
  function AsAssertion(c: Config): Assertion {
    Assertion(NAME, Critical, (staged, reference) => Checked(
      if Passes(c.tolerance, staged, reference) then Result(NAME, Passed, Critical, "")
      else Result(NAME, Failed, Critical, "rates do not reconcile")))
  }

  /** The assertion of a run gives the verdict of `check`. */
  lemma AssertionIsCheck(c: Config, staged: Value, reference: Value)
    ensures var result := RunOne(AsAssertion(c), staged, reference);
      && result.Some? && result.value.name == NAME && result.value.severity == Critical
      && result.value.status == if Passes(c.tolerance, staged, reference) then Passed else Failed
  {
  }

  // ---------------------------------------------------------------- laws

  /** What passes, in terms of the rates alone: the same keys, and numbers no further apart than the
      tolerance. */
  lemma AcceptanceBand(tolerance: real, staged: Value, reference: Value)
    ensures Passes(tolerance, staged, reference) <==>
      && staged.Obj? && reference.Obj? && staged.fields.Keys == reference.fields.Keys
      && forall k <- staged.fields.Keys ::
           && Numeric(staged.fields[k]) && Numeric(reference.fields[k])
           && WithinBand(tolerance, staged.fields[k], reference.fields[k])
  {
    if staged.Obj? && reference.Obj? && staged.fields.Keys == reference.fields.Keys {
      forall k <- staged.fields.Keys
        ensures Agrees(tolerance, staged.fields[k], reference.fields[k]) <==>
          && Numeric(staged.fields[k]) && Numeric(reference.fields[k])
          && WithinBand(tolerance, staged.fields[k], reference.fields[k])
      {
      }
    }
  }

  function One(key: string, v: Value): Value {
    Obj(map[key := v])
  }

  /** One pair of rates, whether written as floats, integers or booleans; anything else never
      reconciles, not even with itself. */
  lemma OnePairBand(tolerance: real, key: string, x: real, y: real, m: int, n: int, b: bool, other: Value, v: Value)
    requires other.Null? || other.Str? || other.Arr? || other.Obj?
    ensures Passes(tolerance, One(key, Num(x)), One(key, Num(y))) <==> y - tolerance <= x <= y + tolerance
    ensures Passes(tolerance, One(key, Int(m)), One(key, Int(n))) <==>
      n as real - tolerance <= m as real <= n as real + tolerance
    ensures Passes(tolerance, One(key, Int(m)), One(key, Num(y))) <==> y - tolerance <= m as real <= y + tolerance
    ensures Passes(tolerance, One(key, Bool(b)), One(key, Num(y))) <==>
      y - tolerance <= (if b then 1.0 else 0.0) <= y + tolerance
    ensures !Passes(tolerance, One(key, other), One(key, v)) && !Passes(tolerance, One(key, v), One(key, other))
  {
    OneAgrees(tolerance, key, Num(x), Num(y));
    OneAgrees(tolerance, key, Int(m), Int(n));
    OneAgrees(tolerance, key, Int(m), Num(y));
    OneAgrees(tolerance, key, Bool(b), Num(y));
    OneAgrees(tolerance, key, other, v);
    OneAgrees(tolerance, key, v, other);
  }

  lemma OneAgrees(tolerance: real, key: string, s: Value, r: Value)
    ensures Passes(tolerance, One(key, s), One(key, r)) <==>
      Numeric(s) && Numeric(r) && WithinBand(tolerance, s, r)
  {
    AcceptanceBand(tolerance, One(key, s), One(key, r));
    assert key in map[key := s].Keys;
  }

  lemma PassingIsSymmetric(tolerance: real, a: Value, b: Value)
    ensures Passes(tolerance, a, b) <==> Passes(tolerance, b, a)
  {
    if a.Obj? && b.Obj? && a.fields.Keys == b.fields.Keys {
      forall k <- a.fields.Keys
        ensures Agrees(tolerance, a.fields[k], b.fields[k]) <==> Agrees(tolerance, b.fields[k], a.fields[k])
      {
      }
    }
  }

  /** Drift adds up along a chain of checks. */
  lemma PassingComposes(a: Value, b: Value, c: Value, t1: real, t2: real)
    requires Passes(t1, a, b) && Passes(t2, b, c)
    ensures Passes(t1 + t2, a, c)
  {
    forall k <- a.fields.Keys ensures Agrees(t1 + t2, a.fields[k], c.fields[k]) {
      assert Agrees(t1, a.fields[k], b.fields[k]);
      assert Agrees(t2, b.fields[k], c.fields[k]);
    }
  }

  lemma PassingIsMonotone(a: Value, b: Value, t1: real, t2: real)
    requires Passes(t1, a, b) && t1 <= t2
    ensures Passes(t2, a, b)
  {
    forall k <- a.fields.Keys ensures Agrees(t2, a.fields[k], b.fields[k]) {
      assert Agrees(t1, a.fields[k], b.fields[k]);
    }
  }

  /** A dict of numbers. */
  predicate RateTable(v: Value) {
    v.Obj? && forall k <- v.fields.Keys :: Numeric(v.fields[k])
  }

  lemma RateTablesAgreeWithThemselves(tolerance: real, v: Value)
    requires tolerance >= 0.0
    ensures Passes(tolerance, v, v) <==> RateTable(v)
  {
    if RateTable(v) {
      forall k <- v.fields.Keys ensures Agrees(tolerance, v.fields[k], v.fields[k]) {
      }
    } else if v.Obj? {
      var k :| k in v.fields.Keys && !Numeric(v.fields[k]);
      assert !Agrees(tolerance, v.fields[k], v.fields[k]);
    }
  }

  /** The verdict the class documentation promises: absent required keys fail regardless. */
  predicate DocumentedPasses(c: Config, staged: Value, reference: Value) {
    && Passes(c.tolerance, staged, reference)
    && c.requiredKeys <= staged.fields.Keys && c.requiredKeys <= reference.fields.Keys
  }

  /** required_keys never enters the verdict. Against a numeric reference the documented promise
      is kept for every staged payload exactly when the reference itself has the required keys. */
  lemma RequiredKeysHoldOnlyThroughReference(c: Config, reference: Value)
    requires c.Valid() && RateTable(reference)
    ensures (forall staged: Value ::
              Passes(c.tolerance, staged, reference) <==> DocumentedPasses(c, staged, reference))
       <==> c.requiredKeys <= reference.fields.Keys
  {
    RateTablesAgreeWithThemselves(c.tolerance, reference);
    if !(c.requiredKeys <= reference.fields.Keys) {
      assert Passes(c.tolerance, reference, reference);
      assert !DocumentedPasses(c, reference, reference);
    }
  }
}
