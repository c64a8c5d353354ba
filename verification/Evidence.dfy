/** The evidence trail: what each invocation has appended, and how published and queued rows
    correspond to audit rows. */
module Evidence {
  import opened Wrappers
  import opened Models
  import opened Protocol
  import opened Invariants

  // ---------------------------------------------------------------- rows of one invocation

  function AuditBy(rows: seq<AuditRow>, i: nat): seq<AuditRow> {
    if rows == [] then []
    else
      var last := rows[|rows| - 1];
      AuditBy(rows[..|rows| - 1], i) + (if last.writer == i then [last] else [])
  }

  function PublishedBy(rows: seq<PublishedRow>, i: nat): seq<PublishedRow> {
    if rows == [] then []
    else
      var last := rows[|rows| - 1];
      PublishedBy(rows[..|rows| - 1], i) + (if last.writer == i then [last] else [])
  }

  function QueueBy(rows: seq<QueueRow>, i: nat): seq<QueueRow> {
    if rows == [] then []
    else
      var last := rows[|rows| - 1];
      QueueBy(rows[..|rows| - 1], i) + (if last.writer == i then [last] else [])
  }

  lemma AuditByAppend(rows: seq<AuditRow>, more: Option<AuditRow>, i: nat)
    ensures AuditBy(rows + Opt(more), i) ==
      AuditBy(rows, i) + (if more.Some? && more.value.writer == i then [more.value] else [])
  {
    match more
    case None => assert rows + [] == rows;
    case Some(x) => assert (rows + [x])[..|rows|] == rows;
  }

  lemma PublishedByAppend(rows: seq<PublishedRow>, more: Option<PublishedRow>, i: nat)
    ensures PublishedBy(rows + Opt(more), i) ==
      PublishedBy(rows, i) + (if more.Some? && more.value.writer == i then [more.value] else [])
  {
    match more
    case None => assert rows + [] == rows;
    case Some(x) => assert (rows + [x])[..|rows|] == rows;
  }

  lemma QueueByAppend(rows: seq<QueueRow>, more: Option<QueueRow>, i: nat)
    ensures QueueBy(rows + Opt(more), i) ==
      QueueBy(rows, i) + (if more.Some? && more.value.writer == i then [more.value] else [])
  {
    match more
    case None => assert rows + [] == rows;
    case Some(x) => assert (rows + [x])[..|rows|] == rows;
  }

  /** The rows published since the seed. */
  function Added(s: State, seeded: nat): seq<PublishedRow>
    requires seeded <= |s.published|
  {
    s.published[seeded..]
  }

  /** Invocation i has appended exactly the rows of the outcome it committed, and no others. */
  ghost predicate Ledger(s: State, seeded: nat, i: nat)
    requires i < |s.runs| && seeded <= |s.published|
  {
    var r := s.runs[i];
    var c := Committed(r);
    && AuditBy(s.audit, i) == (if c.Some? then [AuditRowOf(i, r, c.value)] else [])
    && PublishedBy(Added(s, seeded), i) == (if c == Some(Published) then [PublishedRowOf(i, r)] else [])
    && QueueBy(s.queue, i) == (if c == Some(RoutedToReview) then [QueueRowOf(i, r)] else [])
  }

  ghost predicate LedgersOk(s: State, seeded: nat) {
    && seeded <= |s.published|
    && (forall i | 0 <= i < |s.runs| :: Ledger(s, seeded, i))
    && (forall i | |s.runs| <= i :: Unwritten(s, seeded, i))
  }

  /** A step records an outcome exactly when it commits one, and leaves the rows of that outcome
      as they were pending. */
  lemma StepCommits(s: State, i: nat, o: Oracle)
    requires i < |s.runs| && StepOf(s, i, o).Next?
    ensures var r, m := s.runs[i], StepOf(s, i, o); var c := Committed(m.run);
      && Committed(r).None?
      && (c.Some? ==> m.commits)
      && (m.commits && r.pc.StagingCommit? ==> c.None?)
      && (m.commits && r.pc.PublishCommit? ==> c == Some(Published) && PublishedRowOf(i, m.run) == PublishedRowOf(i, r))
      && (m.commits && r.pc.RouteCommit? ==> c == Some(RoutedToReview) && QueueRowOf(i, m.run) == QueueRowOf(i, r))
      && (m.commits && r.pc.ErrorCommit? ==> c == Some(RunStatus.Errored))
      && (c.Some? ==> AuditRowOf(i, m.run, c.value) == AuditRowOf(i, r, c.value))
      && (m.commits ==> Committing(r.pc))
  {
  }

  /** What a commit makes durable is the outcome recorded for it, with the rows that go with it. */
  lemma StepOutcome(s: State, i: nat, o: Oracle)
    requires Inv(s) && i < |s.runs| && StepOf(s, i, o).Next?
    ensures var t, m := s.runs[i].txn, StepOf(s, i, o); var c := Committed(m.run);
      && Committed(s.runs[i]).None?
      && (c.Some? ==> m.commits)
      && (m.commits ==>
            && t.audit == (if c.Some? then Some(AuditRowOf(i, m.run, c.value)) else None)
            && t.published == (if c == Some(Published) then Some(PublishedRowOf(i, m.run)) else None)
            && t.queued == (if c == Some(RoutedToReview) then Some(QueueRowOf(i, m.run)) else None))
  {
    StepCommits(s, i, o);
    PendingFits(s, i, o);
  }

  /** No row of invocation j. */
  ghost predicate Unwritten(s: State, seeded: nat, j: nat)
    requires seeded <= |s.published|
  {
    AuditBy(s.audit, j) == [] && PublishedBy(Added(s, seeded), j) == [] && QueueBy(s.queue, j) == []
  }

  lemma FlushAppends(s: State, txn: Txn, seeded: nat, j: nat)
    requires seeded <= |s.published|
    ensures var t := Flush(s, txn);
      && AuditBy(t.audit, j) == AuditBy(s.audit, j) + (if txn.audit.Some? && txn.audit.value.writer == j then [txn.audit.value] else [])
      && PublishedBy(Added(t, seeded), j) ==
           PublishedBy(Added(s, seeded), j) + (if txn.published.Some? && txn.published.value.writer == j then [txn.published.value] else [])
      && QueueBy(t.queue, j) == QueueBy(s.queue, j) + (if txn.queued.Some? && txn.queued.value.writer == j then [txn.queued.value] else [])
  {
    assert Added(Flush(s, txn), seeded) == Added(s, seeded) + Opt(txn.published);
    AuditByAppend(s.audit, txn.audit, j);
    PublishedByAppend(Added(s, seeded), txn.published, j);
    QueueByAppend(s.queue, txn.queued, j);
  }

  /** The rows of a transaction are those of the outcome that r records. */
  ghost predicate TxnOf(txn: Txn, i: nat, r: Run) {
    var c := Committed(r);
    && txn.audit == (if c.Some? then Some(AuditRowOf(i, r, c.value)) else None)
    && txn.published == (if c == Some(Published) then Some(PublishedRowOf(i, r)) else None)
    && txn.queued == (if c == Some(RoutedToReview) then Some(QueueRowOf(i, r)) else None)
  }

  /** Invocation i becomes r while the rows of its outcome become durable. */
  lemma CommitKeepsOwnLedger(s: State, i: nat, r: Run, seeded: nat)
    requires LedgersOk(s, seeded) && i < |s.runs| && Committed(s.runs[i]).None? && TxnOf(s.runs[i].txn, i, r)
    ensures Ledger(Flush(s, s.runs[i].txn).(runs := s.runs[i := r]), seeded, i)
  {
    FlushAppends(s, s.runs[i].txn, seeded, i);
    assert Ledger(s, seeded, i);
  }

  /** The rows of invocation j are the same. */
  ghost predicate SameRows(s: State, t: State, seeded: nat, j: nat)
    requires seeded <= |s.published| && seeded <= |t.published|
  {
    && AuditBy(t.audit, j) == AuditBy(s.audit, j)
    && PublishedBy(Added(t, seeded), j) == PublishedBy(Added(s, seeded), j)
    && QueueBy(t.queue, j) == QueueBy(s.queue, j)
  }

  lemma FlushKeepsOthers(s: State, i: nat, r: Run, txn: Txn, seeded: nat, j: nat)
    requires seeded <= |s.published| && TxnOf(txn, i, r) && j != i
    ensures SameRows(s, Flush(s, txn), seeded, j)
  {
    FlushAppends(s, txn, seeded, j);
  }

  lemma LedgerCarriesOver(s: State, t: State, seeded: nat, j: nat)
    requires seeded <= |s.published| && seeded <= |t.published| && |t.runs| == |s.runs| && SameRows(s, t, seeded, j)
    requires if j < |s.runs| then t.runs[j] == s.runs[j] && Ledger(s, seeded, j) else Unwritten(s, seeded, j)
    ensures if j < |t.runs| then Ledger(t, seeded, j) else Unwritten(t, seeded, j)
  {
  }

  lemma CommitKeepsOtherLedger(s: State, i: nat, r: Run, seeded: nat, j: nat)
    requires LedgersOk(s, seeded) && i < |s.runs| && TxnOf(s.runs[i].txn, i, r) && j != i
    ensures var t := Flush(s, s.runs[i].txn).(runs := s.runs[i := r]);
      if j < |t.runs| then Ledger(t, seeded, j) else Unwritten(t, seeded, j)
  {
    FlushKeepsOthers(s, i, r, s.runs[i].txn, seeded, j);
    assert if j < |s.runs| then Ledger(s, seeded, j) else Unwritten(s, seeded, j);
    LedgerCarriesOver(s, Flush(s, s.runs[i].txn).(runs := s.runs[i := r]), seeded, j);
  }

  lemma StepKeepsLedger(s: State, i: nat, o: Oracle, seeded: nat, j: nat)
    requires Inv(s) && LedgersOk(s, seeded) && i < |s.runs| && StepOf(s, i, o).Next?
    ensures var t := Apply(s, Step(i, o)); if j < |t.runs| then Ledger(t, seeded, j) else Unwritten(t, seeded, j)
  {
    StepOutcome(s, i, o);
    if StepOf(s, i, o).commits {
      if i == j {
        CommitKeepsOwnLedger(s, i, StepOf(s, i, o).run, seeded);
      } else {
        CommitKeepsOtherLedger(s, i, StepOf(s, i, o).run, seeded, j);
      }
    } else {
      assert Apply(s, Step(i, o)) == s.(runs := s.runs[i := StepOf(s, i, o).run]);
      assert if j < |s.runs| then Ledger(s, seeded, j) else Unwritten(s, seeded, j);
    }
  }

  lemma ApplyKeepsLedger(s: State, e: Event, seeded: nat, j: nat)
    requires Inv(s) && LedgersOk(s, seeded)
    ensures seeded <= |Apply(s, e).published|
    ensures var t := Apply(s, e); if j < |t.runs| then Ledger(t, seeded, j) else Unwritten(t, seeded, j)
  {
    if e.Step? && e.i < |s.runs| && StepOf(s, e.i, e.o).Next? {
      StepTables(s, e.i, e.o);
      StepKeepsLedger(s, e.i, e.o, seeded, j);
    } else {
      var t := Apply(s, e);
      assert t.published == s.published && t.audit == s.audit && t.queue == s.queue;
      assert if j < |s.runs| then Ledger(s, seeded, j) else Unwritten(s, seeded, j);
    }
  }

  lemma ApplyKeepsLedgers(s: State, e: Event, seeded: nat)
    requires Inv(s) && LedgersOk(s, seeded)
    ensures LedgersOk(Apply(s, e), seeded)
  {
    var t := Apply(s, e);
    ApplyKeepsLedger(s, e, seeded, 0);
    forall j: nat
      ensures if j < |t.runs| then Ledger(t, seeded, j) else Unwritten(t, seeded, j)
    {
      ApplyKeepsLedger(s, e, seeded, j);
    }
  }

  lemma {:induction false} ReachableLedgers(seed: seq<PublishedRow>, events: seq<Event>)
    requires ValidSeed(seed)
    ensures LedgersOk(Exec(Init(seed), events), |seed|)
  {
    if events == [] {
      assert Added(Init(seed), |seed|) == [];
    } else {
      var before := events[..|events| - 1];
      ReachableLedgers(seed, before);
      ReachableInv(seed, before);
      ApplyKeepsLedgers(Exec(Init(seed), before), events[|events| - 1], |seed|);
    }
  }

  /** Audit accounting, for every interleaving and every fault. An invocation that returned has
      exactly one audit row, with its run, dataset, staging_ref, status and report, or none exactly
      when it is ERRORED and its own audit write was not committed. One that raised or died has
      none, except when the server had committed its outcome and only the acknowledgement was lost;
      then it has that one row. One still running has none. */
  lemma AuditAccounting(seed: seq<PublishedRow>, events: seq<Event>, i: nat)
    requires ValidSeed(seed) && i < |Exec(Init(seed), events).runs|
    ensures var s := Exec(Init(seed), events); var r := s.runs[i];
      match r.pc
      case Returned(status, audited) =>
        && AuditBy(s.audit, i) == (if audited then [AuditRowOf(i, r, status)] else [])
        && (!audited ==> status.Errored?)
      case Escaped(committed) =>
        AuditBy(s.audit, i) == (if committed.Some? then [AuditRowOf(i, r, committed.value)] else [])
      case _ => AuditBy(s.audit, i) == []
  {
    ReachableLedgers(seed, events);
    ReachableInv(seed, events);
    assert Ledger(Exec(Init(seed), events), |seed|, i);
    assert RunOk(Exec(Init(seed), events), i);
  }

  // ---------------------------------------------------------------- bijection

  /** What a published row and its audit row must agree on. */
  datatype Claim = Claim(writer: nat, uuid: string, key: string, stagingRef: string, publishedRef: string, at: int)

  function PublishedClaims(rows: seq<PublishedRow>): seq<Claim> {
    if rows == [] then []
    else
      var p := rows[|rows| - 1];
      PublishedClaims(rows[..|rows| - 1]) + [Claim(p.writer, p.uuid, p.key, p.stagingRef, p.ref, p.publishedAt)]
  }

  function AuditedClaims(rows: seq<AuditRow>): seq<Claim> {
    if rows == [] then []
    else
      var a := rows[|rows| - 1];
      AuditedClaims(rows[..|rows| - 1]) +
        (if a.status.Published? && a.publishedRef.Some?
         then [Claim(a.writer, a.uuid, a.key, a.stagingRef, a.publishedRef.value, a.completedAt)] else [])
  }

  /** What a queued row and its audit row must agree on. */
  datatype Referral = Referral(writer: nat, uuid: string, key: string, stagingRef: string, report: Report, at: int)

  function QueuedReferrals(rows: seq<QueueRow>): seq<Referral> {
    if rows == [] then []
    else
      var q := rows[|rows| - 1];
      QueuedReferrals(rows[..|rows| - 1]) + [Referral(q.writer, q.uuid, q.key, q.stagingRef, q.report, q.queuedAt)]
  }

  function AuditedReferrals(rows: seq<AuditRow>): seq<Referral> {
    if rows == [] then []
    else
      var a := rows[|rows| - 1];
      AuditedReferrals(rows[..|rows| - 1]) +
        (if a.status.RoutedToReview? then [Referral(a.writer, a.uuid, a.key, a.stagingRef, a.report, a.completedAt)] else [])
  }

  lemma PublishedClaimsAppend(rows: seq<PublishedRow>, more: Option<PublishedRow>)
    ensures PublishedClaims(rows + Opt(more)) == PublishedClaims(rows) + PublishedClaims(Opt(more))
  {
    match more
    case None => assert rows + [] == rows;
    case Some(x) => assert (rows + [x])[..|rows|] == rows && [x][..0] == [];
  }

  lemma AuditedClaimsAppend(rows: seq<AuditRow>, more: Option<AuditRow>)
    ensures AuditedClaims(rows + Opt(more)) == AuditedClaims(rows) + AuditedClaims(Opt(more))
  {
    match more
    case None => assert rows + [] == rows;
    case Some(x) => assert (rows + [x])[..|rows|] == rows && [x][..0] == [];
  }

  lemma QueuedReferralsAppend(rows: seq<QueueRow>, more: Option<QueueRow>)
    ensures QueuedReferrals(rows + Opt(more)) == QueuedReferrals(rows) + QueuedReferrals(Opt(more))
  {
    match more
    case None => assert rows + [] == rows;
    case Some(x) => assert (rows + [x])[..|rows|] == rows && [x][..0] == [];
  }

  lemma AuditedReferralsAppend(rows: seq<AuditRow>, more: Option<AuditRow>)
    ensures AuditedReferrals(rows + Opt(more)) == AuditedReferrals(rows) + AuditedReferrals(Opt(more))
  {
    match more
    case None => assert rows + [] == rows;
    case Some(x) => assert (rows + [x])[..|rows|] == rows && [x][..0] == [];
  }

  /** What one transaction publishes and queues is what it audits. */
  ghost predicate TxnMatched(txn: Txn) {
    && PublishedClaims(Opt(txn.published)) == AuditedClaims(Opt(txn.audit))
    && QueuedReferrals(Opt(txn.queued)) == AuditedReferrals(Opt(txn.audit))
  }

  lemma CommittedTxnMatches(s: State, i: nat, o: Oracle)
    requires Inv(s) && i < |s.runs| && StepOf(s, i, o).Next? && StepOf(s, i, o).commits
    ensures TxnMatched(s.runs[i].txn)
  {
    var txn := s.runs[i].txn;
    StepOutcome(s, i, o);
    assert txn.published.Some? ==> [txn.published.value][..0] == [];
    assert txn.audit.Some? ==> [txn.audit.value][..0] == [];
    assert txn.queued.Some? ==> [txn.queued.value][..0] == [];
  }

  lemma FlushKeepsMatched(s: State, txn: Txn, seeded: nat)
    requires Matched(s, seeded) && TxnMatched(txn)
    ensures Matched(Flush(s, txn), seeded)
  {
    assert Added(Flush(s, txn), seeded) == Added(s, seeded) + Opt(txn.published);
    PublishedClaimsAppend(Added(s, seeded), txn.published);
    AuditedClaimsAppend(s.audit, txn.audit);
    QueuedReferralsAppend(s.queue, txn.queued);
    AuditedReferralsAppend(s.audit, txn.audit);
  }

  /** Rows and audit rows match one to one, and in the same order. */
  ghost predicate Matched(s: State, seeded: nat) {
    && seeded <= |s.published|
    && PublishedClaims(Added(s, seeded)) == AuditedClaims(s.audit)
    && QueuedReferrals(s.queue) == AuditedReferrals(s.audit)
  }

  lemma SameTablesMatch(s: State, t: State, seeded: nat)
    requires Matched(s, seeded) && t.published == s.published && t.audit == s.audit && t.queue == s.queue
    ensures Matched(t, seeded)
  {
  }

  lemma ApplyKeepsMatched(s: State, e: Event, seeded: nat)
    requires Inv(s) && Matched(s, seeded)
    ensures Matched(Apply(s, e), seeded)
  {
    if e.Step? && e.i < |s.runs| && StepOf(s, e.i, e.o).Next? && StepOf(s, e.i, e.o).commits {
      var txn := s.runs[e.i].txn;
      CommittedTxnMatches(s, e.i, e.o);
      FlushKeepsMatched(s, txn, seeded);
      SameTablesMatch(Flush(s, txn), Apply(s, e), seeded);
    } else {
      SameTablesMatch(s, Apply(s, e), seeded);
    }
  }

  /** Evidence bijection, for every interleaving and every fault: the rows published since the
      seed are, in order, the audit rows of status `published`, and the queued rows are, in order,
      the audit rows of status `routed_to_review`; a run id occurs at most once in each table. */
  lemma {:induction false} EvidenceBijection(seed: seq<PublishedRow>, events: seq<Event>)
    requires ValidSeed(seed)
    ensures var s := Exec(Init(seed), events);
      && Matched(s, |seed|)
      && s.published[..|seed|] == seed
      && (forall k, l | 0 <= k < l < |s.published| :: s.published[k].uuid != s.published[l].uuid)
      && (forall k, l | 0 <= k < l < |s.queue| :: s.queue[k].uuid != s.queue[l].uuid)
  {
    ReachableMatched(seed, events);
    ReachableInv(seed, events);
    assert forall k, l | 0 <= k < l < |Exec(Init(seed), events).published| ::
      !SamePublished(Exec(Init(seed), events).published[k], Exec(Init(seed), events).published[l]);
  }

  lemma ApplyKeepsSeed(s: State, e: Event, seed: seq<PublishedRow>)
    requires seed <= s.published
    ensures seed <= Apply(s, e).published
  {
  }

  lemma {:induction false} ReachableMatched(seed: seq<PublishedRow>, events: seq<Event>)
    requires ValidSeed(seed)
    ensures Matched(Exec(Init(seed), events), |seed|) && seed <= Exec(Init(seed), events).published
  {
    if events == [] {
      assert Added(Init(seed), |seed|) == [];
    } else {
      var before := events[..|events| - 1];
      ReachableMatched(seed, before);
      ReachableInv(seed, before);
      ApplyKeepsMatched(Exec(Init(seed), before), events[|events| - 1], |seed|);
      ApplyKeepsSeed(Exec(Init(seed), before), events[|events| - 1], seed);
    }
  }
}
