/** core/enums.py, core/models.py, and the two gates that read a report. */
module Models {
  import opened Wrappers
  import opened Json

  datatype AssertionStatus = Passed | Failed | Errored

  datatype RunStatus = Published | RoutedToReview | Errored

  datatype Severity = Critical | Warn | Info

  datatype RawResult = Result(name: string, status: AssertionStatus, severity: Severity, message: string)

  /** What `AssertionResult.__post_init__` enforces. */
  predicate Reviewable(r: RawResult) {
    && r.name != ""
    && (r.status.Failed? ==> r.message != "")
  }

  type AssertionResult = r: RawResult | Reviewable(r) witness Result("assertion", Passed, Info, "")

  /** `check()` returns a result or raises. */
  datatype CheckOutcome = Checked(result: AssertionResult) | Raised(exception: string)

  datatype Assertion = Assertion(name: string, severity: Severity, check: (Value, Value) -> CheckOutcome)

  /** `_run_one_assertion`. None: the fallback result itself cannot be built, because the
      assertion that raised has an empty name, so the ValueError leaves `run`. */
  function RunOne(a: Assertion, staged: Value, reference: Value): Option<AssertionResult> {
    match a.check(staged, reference)
    case Checked(r) => Some(r)
    case Raised(e) =>
      if |a.name| == 0 then None
      else
        var fallback := Result(a.name, AssertionStatus.Errored, a.severity, "Assertion raised: " + e);
        assert Reviewable(fallback);
        Some(fallback)
  }

  /** The results comprehension of `run`. */
  function RunAll(assertions: seq<Assertion>, staged: Value, reference: Value): Option<seq<AssertionResult>>
  {
    if assertions == [] then Some([])
    else
      match RunOne(assertions[0], staged, reference)
      case None => None
      case Some(r) =>
        match RunAll(assertions[1..], staged, reference)
        case None => None
        case Some(rest) => Some([r] + rest)
  }

  datatype Report = Report(runId: string, results: seq<AssertionResult>) {
    predicate AllPassed() {
      forall r <- results :: r.status.Passed?
    }

    function FailedResults(): seq<AssertionResult> {
      Failing(results)
    }

    function HighestFailedSeverity(): Option<Severity> {
      var failed := FailedResults();
      if failed == [] then None else Some(MostCritical(failed))
    }
  }

  function Failing(rs: seq<AssertionResult>): seq<AssertionResult> {
    if rs == [] then []
    else (if rs[0].status.Passed? then [] else [rs[0]]) + Failing(rs[1..])
  }

  function Order(s: Severity): nat {
    match s case Critical => 0 case Warn => 1 case Info => 2
  }

  /** `min(..., key=order)`: the first least element. */
  function MostCritical(rs: seq<AssertionResult>): Severity
    requires rs != []
  {
    if |rs| == 1 then rs[0].severity
    else
      var rest := MostCritical(rs[1..]);
      if Order(rs[0].severity) <= Order(rest) then rs[0].severity else rest
  }

  /** `Publisher._validate_report_passed` lets the call go on. */
  predicate PublishGate(report: Report) {
    report.AllPassed()
  }

  /** `ReviewQueueRouter._validate_report_failed` lets the call go on. */
  predicate ReviewGate(report: Report) {
    !report.AllPassed()
  }

  /** `_severity_value`, with its WARN fallback. */
  function QueueSeverity(report: Report): Severity {
    match report.HighestFailedSeverity()
    case None => Warn
    case Some(s) => s
  }

  datatype ErrorKind = WriteFailed | ReadBackFailed | ReferenceFailed | PublishRefused | RoutingRefused

  datatype RawRunResult = RunResult(
    runId: string, status: RunStatus, report: Report, stagingRef: string,
    publishedRef: Option<string>, error: Option<ErrorKind>, startedAt: int, completedAt: int)

  /** What `RunResult.__post_init__` enforces; an error kind stands for a non-empty message. */
  predicate Claimable(r: RawRunResult) {
    && (r.status.Published? ==> r.publishedRef.Some?)
    && (r.status.Errored? ==> r.error.Some?)
  }

  type RunResult = r: RawRunResult | Claimable(r)
    witness RunResult("", RoutedToReview, Report("", []), "", None, None, 0, 0)

  // ---------------------------------------------------------------- results, one per assertion

  /** Results exist unless an assertion with an empty name raised; result k then depends on
      assertion k alone. */
  lemma {:induction false} ResultsAreIsolated(assertions: seq<Assertion>, staged: Value, reference: Value)
    ensures RunAll(assertions, staged, reference).Some?
       <==> forall a <- assertions :: a.check(staged, reference).Raised? ==> a.name != ""
    ensures RunAll(assertions, staged, reference).Some? ==>
      var results := RunAll(assertions, staged, reference).value;
      && |results| == |assertions|
      && forall k | 0 <= k < |assertions| :: Some(results[k]) == RunOne(assertions[k], staged, reference)
  {
    if assertions != [] {
      ResultsAreIsolated(assertions[1..], staged, reference);
      assert assertions == [assertions[0]] + assertions[1..];
    }
  }

  lemma {:induction false} FailingIsExact(rs: seq<AssertionResult>)
    ensures forall r :: r in Failing(rs) <==> r in rs && !r.status.Passed?
  {
    if rs != [] {
      FailingIsExact(rs[1..]);
      assert rs == [rs[0]] + rs[1..];
    }
  }

  lemma {:induction false} MostCriticalIsLeast(rs: seq<AssertionResult>)
    requires rs != []
    ensures exists r :: r in rs && r.severity == MostCritical(rs)
    ensures forall r <- rs :: Order(MostCritical(rs)) <= Order(r.severity)
  {
    if |rs| == 1 {
      assert rs[0] in rs;
    } else {
      MostCriticalIsLeast(rs[1..]);
      assert rs == [rs[0]] + rs[1..];
      if Order(rs[0].severity) <= Order(MostCritical(rs[1..])) {
        assert rs[0] in rs;
      } else {
        var r :| r in rs[1..] && r.severity == MostCritical(rs[1..]);
        assert r in rs;
      }
    }
  }

  /** A severity is the queue's severity exactly when some non-passing result has it and no
      non-passing result is more critical; there is none exactly when everything passed. */
  lemma SeverityIsMostCriticalFailure(report: Report, s: Severity)
    ensures report.HighestFailedSeverity().None? <==> report.AllPassed()
    ensures report.HighestFailedSeverity() == Some(s) <==>
      && (exists r :: r in report.results && !r.status.Passed? && r.severity == s)
      && (forall r <- report.results :: !r.status.Passed? ==> Order(s) <= Order(r.severity))
  {
    FailingIsExact(report.results);
    var failed := report.FailedResults();
    if failed == [] {
      forall r <- report.results ensures r.status.Passed? {
        assert r !in failed;
      }
    } else {
      assert failed[0] in failed;
      MostCriticalIsLeast(failed);
    }
  }

  /** The same, severity by severity: CRITICAL if any failure is, then WARN, then INFO. */
  lemma SeverityByName(report: Report)
    ensures var has := (s: Severity) => exists r :: r in report.results && !r.status.Passed? && r.severity == s;
      report.HighestFailedSeverity() ==
        if has(Critical) then Some(Critical) else if has(Warn) then Some(Warn) else if has(Info) then Some(Info) else None
  {
    SeverityIsMostCriticalFailure(report, Critical);
    SeverityIsMostCriticalFailure(report, Warn);
    SeverityIsMostCriticalFailure(report, Info);
  }

  /** What one assertion contributes: its own result, or if it raised an ERRORED result under its name
      and severity, which cannot be built for an empty name. */
  lemma RaisingIsErrored(a: Assertion, staged: Value, reference: Value)
    ensures var outcome, result := a.check(staged, reference), RunOne(a, staged, reference);
      match outcome
      case Checked(r) => result == Some(r)
      case Raised(_) =>
        if a.name == "" then result == None
        else
          && result.Some? && result.value.name == a.name && result.value.severity == a.severity
          && result.value.status == AssertionStatus.Errored && !result.value.status.Passed?
  {
  }

  /** The gates split the reports: each is let through by exactly one of them, and the WARN
      fallback of the queue severity is never taken on a report the review gate lets through. */
  lemma GatesPartitionReports(report: Report)
    ensures PublishGate(report) != ReviewGate(report)
    ensures ReviewGate(report) ==> report.HighestFailedSeverity() == Some(QueueSeverity(report))
    ensures ReviewGate(report) <==> exists r :: r in report.results && !r.status.Passed?
  {
    SeverityIsMostCriticalFailure(report, Warn);
  }

  // ---------------------------------------------------------------- order does not matter

  /** `b` is `a` rearranged by the bijection `p`. */
  ghost predicate Rearranged<T>(a: seq<T>, b: seq<T>, p: seq<nat>) {
    && |a| == |b| == |p|
    && (forall i | 0 <= i < |p| :: p[i] < |a| && b[i] == a[p[i]])
    && (forall j | 0 <= j < |a| :: j in p)
  }

  lemma RearrangedSameElements<T>(a: seq<T>, b: seq<T>, p: seq<nat>)
    requires Rearranged(a, b, p)
    ensures forall x :: x in a <==> x in b
  {
    forall x | x in a ensures x in b {
      var j :| 0 <= j < |a| && a[j] == x;
      assert j in p;
      var i :| 0 <= i < |p| && p[i] == j;
      assert b[i] == x;
    }
  }

  /** The branch taken and the queue severity depend only on which results there are. */
  lemma SameResultsSameBranch(ra: Report, rb: Report)
    requires forall r :: r in ra.results <==> r in rb.results
    ensures ra.AllPassed() == rb.AllPassed()
    ensures ra.HighestFailedSeverity() == rb.HighestFailedSeverity()
  {
    var s := QueueSeverity(ra);
    SeverityIsMostCriticalFailure(ra, s);
    SeverityIsMostCriticalFailure(rb, s);
    if !ra.AllPassed() {
      GatesPartitionReports(ra);
    }
  }

  lemma ResultsRearrange(a: seq<Assertion>, b: seq<Assertion>, p: seq<nat>, staged: Value, reference: Value)
    requires Rearranged(a, b, p)
    ensures RunAll(a, staged, reference).Some? <==> RunAll(b, staged, reference).Some?
    ensures RunAll(a, staged, reference).Some? ==>
      Rearranged(RunAll(a, staged, reference).value, RunAll(b, staged, reference).value, p)
  {
    RearrangedSameElements(a, b, p);
    ResultsAreIsolated(a, staged, reference);
    ResultsAreIsolated(b, staged, reference);
  }

  /** Rearranging the assertions rearranges the results in the same way, and neither the branch
      taken nor the queue severity changes. */
  lemma OrderOfAssertionsIsImmaterial(
      a: seq<Assertion>, b: seq<Assertion>, p: seq<nat>, staged: Value, reference: Value, runId: string)
    requires Rearranged(a, b, p)
    ensures RunAll(a, staged, reference).Some? <==> RunAll(b, staged, reference).Some?
    ensures RunAll(a, staged, reference).Some? ==>
      var ra := Report(runId, RunAll(a, staged, reference).value);
      var rb := Report(runId, RunAll(b, staged, reference).value);
      && Rearranged(ra.results, rb.results, p)
      && ra.AllPassed() == rb.AllPassed()
      && ra.HighestFailedSeverity() == rb.HighestFailedSeverity()
  {
    ResultsRearrange(a, b, p, staged, reference);
    if RunAll(a, staged, reference).Some? {
      var ra := Report(runId, RunAll(a, staged, reference).value);
      var rb := Report(runId, RunAll(b, staged, reference).value);
      RearrangedSameElements(ra.results, rb.results, p);
      SameResultsSameBranch(ra, rb);
    }
  }
}
