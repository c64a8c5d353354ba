/** `published.latest_by_dataset` and what SnapshotReferenceSource can rely on. */
module Snapshots {
  import opened Wrappers
  import opened Protocol
  import opened Invariants

  /** DISTINCT ON as one pass over the table: the row kept so far gives way to a later stamp. */
  function Latest(rows: seq<PublishedRow>, key: string): (k: Option<nat>)
    ensures k.Some? <==> HasRows(rows, key)
    ensures k.Some? ==> IsLatest(rows, key, k.value)
  {
    if rows == [] then None
    else
      var n := |rows| - 1;
      assert rows == rows[..n] + [rows[n]];
      var kept := Latest(rows[..n], key);
      if rows[n].key == key && (kept.None? || rows[kept.value].publishedAt <= rows[n].publishedAt) then Some(n)
      else kept
  }

  // ---------------------------------------------------------------- resolves never go back

  lemma ApplyGrowsPublished(s: State, e: Event)
    ensures s.published <= Apply(s, e).published
  {
    if e.Step? && e.i < |s.runs| {
      StepTables(s, e.i, e.o);
    }
  }

  lemma {:induction false} ExecGrowsPublished(s: State, events: seq<Event>)
    ensures s.published <= Exec(s, events).published
  {
    if events != [] {
      ExecGrowsPublished(s, events[..|events| - 1]);
      ApplyGrowsPublished(Exec(s, events[..|events| - 1]), events[|events| - 1]);
    }
  }

  /** What a resolved snapshot points at: a committed row of the key, at least as recent as every
      row committed by the time `floor` was taken. */
  predicate ResolvedAbove(s: State, i: nat, floor: seq<PublishedRow>)
    requires i < |s.runs|
  {
    var r := s.runs[i];
    r.snapshot.Some? ==>
      && r.snapshot.value < |s.published| && s.published[r.snapshot.value].key == r.spec.key
      && forall p <- floor :: p.key == r.spec.key ==> p.publishedAt <= s.published[r.snapshot.value].publishedAt
  }

  lemma StepSnapshot(s: State, i: nat, o: Oracle)
    requires i < |s.runs| && StepOf(s, i, o).Next?
    ensures var q := StepOf(s, i, o).run;
      q.snapshot == s.runs[i].snapshot
      || (q.snapshot == Some(o.pick) && IsLatest(s.published, s.runs[i].spec.key, o.pick))
  {
  }

  lemma ApplyKeepsResolvedAbove(s: State, e: Event, i: nat, floor: seq<PublishedRow>)
    requires i < |s.runs| && floor <= s.published && ResolvedAbove(s, i, floor)
    ensures ResolvedAbove(Apply(s, e), i, floor)
  {
    ApplyKeepsSpecs(s, e);
    ApplyGrowsPublished(s, e);
    if e.Step? && e.i == i && StepOf(s, i, e.o).Next? {
      StepSnapshot(s, i, e.o);
      StepTables(s, i, e.o);
      StepKeepsSpec(s, i, e.o);
    }
  }

  lemma {:induction false} ExecKeepsResolvedAbove(s: State, more: seq<Event>, i: nat, floor: seq<PublishedRow>)
    requires i < |s.runs| && floor <= s.published && ResolvedAbove(s, i, floor)
    ensures i < |Exec(s, more).runs| && ResolvedAbove(Exec(s, more), i, floor)
    ensures floor <= Exec(s, more).published
    ensures SpecsKept(s, Exec(s, more))
  {
    if more != [] {
      var before, e := more[..|more| - 1], more[|more| - 1];
      ExecKeepsResolvedAbove(s, before, i, floor);
      ApplyKeepsSpecs(Exec(s, before), e);
      ApplyGrowsPublished(Exec(s, before), e);
      ApplyKeepsResolvedAbove(Exec(s, before), e, i, floor);
    }
  }

  lemma {:induction false} ReachableSnapshots(seed: seq<PublishedRow>, events: seq<Event>, i: nat)
    requires i < |Exec(Init(seed), events).runs|
    ensures ResolvedAbove(Exec(Init(seed), events), i, [])
  {
    if events != [] {
      var before, e := events[..|events| - 1], events[|events| - 1];
      var s := Exec(Init(seed), before);
      if i < |s.runs| {
        ReachableSnapshots(seed, before, i);
        ApplyKeepsResolvedAbove(s, e, i, []);
      }
    }
  }

  /** Successive resolves of a key never go back in time, under every interleaving and although
      stamps and commits may be out of order: a resolved row is a committed row of the key, and if
      `first` has resolved when `second` has not yet, the row that `second` resolves later is at
      least as recent. */
  lemma {:induction false} ResolvesAreMonotone(seed: seq<PublishedRow>, events: seq<Event>, more: seq<Event>, first: nat, second: nat)
    requires var s := Exec(Init(seed), events);
      && first < |s.runs| && second < |s.runs| && s.runs[first].spec.key == s.runs[second].spec.key
      && s.runs[first].snapshot.Some? && s.runs[second].snapshot.None?
    ensures var s := Exec(Init(seed), events); var t := Exec(s, more);
      && s.runs[first].snapshot.value < |s.published| && s.published <= t.published
      && s.published[s.runs[first].snapshot.value].key == s.runs[first].spec.key
      && second < |t.runs| && (t.runs[second].snapshot.Some? ==>
        && t.runs[second].snapshot.value < |t.published|
        && t.published[t.runs[second].snapshot.value].key == s.runs[second].spec.key
        && s.published[s.runs[first].snapshot.value].publishedAt
             <= t.published[t.runs[second].snapshot.value].publishedAt)
  {
    var s := Exec(Init(seed), events);
    ReachableSnapshots(seed, events, first);
    ExecKeepsResolvedAbove(s, more, second, s.published);
    assert s.published[s.runs[first].snapshot.value] in s.published;
  }

  // ---------------------------------------------------------------- latest and last committed

  /** An invocation of the dataset between its stamp and the end of its publish transaction. */
  predicate Publishing(s: State, i: nat, d: string)
    requires i < |s.runs|
  {
    var r := s.runs[i];
    r.spec.key == d && (r.pc.PublishRead? || r.pc.PublishInsert? || r.pc.PublishAudit? || r.pc.PublishCommit?)
  }

  /** The event does not stamp an invocation of d while another is publishing, nor with a clock
      reading that is not above every stamp committed for d. */
  ghost predicate InTurn(s: State, e: Event, d: string) {
    (e.Step? && e.i < |s.runs| && s.runs[e.i].pc.Asserting? && s.runs[e.i].spec.key == d) ==>
      && (forall j | 0 <= j < |s.runs| :: !Publishing(s, j, d))
      && (forall p <- s.published :: p.key == d ==> p.publishedAt < e.o.now)
  }

  /** Publishes of d do not overlap and its clock readings increase. */
  ghost predicate Serial(s: State, events: seq<Event>, d: string) {
    events == [] ||
      var before := events[..|events| - 1];
      Serial(s, before, d) && InTurn(Exec(s, before), events[|events| - 1], d)
  }

  ghost predicate Increasing(rows: seq<PublishedRow>, d: string) {
    forall k, l | 0 <= k < l < |rows| && rows[k].key == d && rows[l].key == d :: rows[k].publishedAt < rows[l].publishedAt
  }

  /** At most one invocation of d is publishing, stamped above everything committed. */
  ghost predicate TurnOk(s: State, d: string) {
    && Increasing(s.published, d)
    && (forall i, j | 0 <= i < |s.runs| && 0 <= j < |s.runs| && Publishing(s, i, d) && Publishing(s, j, d) :: i == j)
    && (forall i, p | 0 <= i < |s.runs| && Publishing(s, i, d) && p in s.published && p.key == d ::
          p.publishedAt < s.runs[i].stamp)
  }

  lemma StepPublishing(s: State, i: nat, o: Oracle, d: string)
    requires i < |s.runs| && StepOf(s, i, o).Next?
    ensures var t := Apply(s, Step(i, o));
      && (Publishing(t, i, d) && !Publishing(s, i, d) ==> s.runs[i].pc.Asserting? && t.runs[i].stamp == o.now)
      && (Publishing(t, i, d) && Publishing(s, i, d) ==> t.runs[i].stamp == s.runs[i].stamp)
      && (Publishing(t, i, d) ==> t.published == s.published)
  {
    StepTables(s, i, o);
    StepSource(s, i, o);
    StepKeepsSpec(s, i, o);
  }

  lemma AppendKeepsIncreasing(rows: seq<PublishedRow>, p: PublishedRow, d: string)
    requires Increasing(rows, d) && StampedAbove(rows, d, p)
    ensures Increasing(rows + [p], d)
  {
  }

  /** A row pending for d is stamped above the others. */
  lemma PendingIsAbove(s: State, i: nat, d: string)
    requires Inv(s) && TurnOk(s, d) && i < |s.runs| && s.runs[i].txn.published.Some?
    ensures StampedAbove(s.published, d, s.runs[i].txn.published.value)
  {
    FlushedRows(s, i);
    var p := s.runs[i].txn.published.value;
    if p.key == d {
      assert Publishing(s, i, d);
    }
  }

  /** A commit that publishes for d appends a row stamped above the others, and ends the turn. */
  lemma StepAppends(s: State, i: nat, o: Oracle, d: string)
    requires Inv(s) && TurnOk(s, d) && i < |s.runs| && StepOf(s, i, o).Next?
    ensures Increasing(Apply(s, Step(i, o)).published, d)
  {
    StepTables(s, i, o);
    if StepOf(s, i, o).commits && s.runs[i].txn.published.Some? {
      PendingIsAbove(s, i, d);
      AppendKeepsIncreasing(s.published, s.runs[i].txn.published.value, d);
    } else {
      assert Apply(s, Step(i, o)).published == s.published;
    }
  }

  /** A step of an invocation that is not publishing for d publishes nothing for d. */
  lemma StepOutOfTurn(s: State, i: nat, o: Oracle, d: string)
    requires Inv(s) && i < |s.runs| && StepOf(s, i, o).Next? && !Publishing(s, i, d)
    ensures var t := Apply(s, Step(i, o));
      forall p <- t.published :: p.key == d ==> p in s.published
  {
    StepTables(s, i, o);
    FlushedRows(s, i);
  }

  /** Afterwards only the invocation whose turn it was can be publishing for d. */
  lemma StepLeavesTurn(s: State, i: nat, o: Oracle, d: string, j: nat)
    requires Inv(s) && TurnOk(s, d) && InTurn(s, Step(i, o), d) && i < |s.runs| && StepOf(s, i, o).Next?
    requires j < |s.runs| && Publishing(Apply(s, Step(i, o)), j, d)
    ensures var t := Apply(s, Step(i, o));
      && (i != j ==> Publishing(s, j, d) && t.runs[j] == s.runs[j])
      && (forall p <- t.published :: p.key == d ==> p.publishedAt < t.runs[j].stamp)
      && (i != j ==> !Publishing(t, i, d))
  {
    StepTables(s, i, o);
    StepPublishing(s, i, o, d);
    if i != j {
      assert Publishing(s, j, d);
      assert !Publishing(s, i, d);
      StepOutOfTurn(s, i, o, d);
      StepKeepsSpec(s, i, o);
    }
  }

  lemma ApplyKeepsTurnOk(s: State, e: Event, d: string)
    requires Inv(s) && TurnOk(s, d) && InTurn(s, e, d)
    ensures TurnOk(Apply(s, e), d)
  {
    var t := Apply(s, e);
    if e.Step? && e.i < |s.runs| && StepOf(s, e.i, e.o).Next? {
      StepTables(s, e.i, e.o);
      StepAppends(s, e.i, e.o, d);
      forall j | 0 <= j < |t.runs| && Publishing(t, j, d)
        ensures j != e.i ==> !Publishing(t, e.i, d) && Publishing(s, j, d)
        ensures forall p <- t.published :: p.key == d ==> p.publishedAt < t.runs[j].stamp
      {
        StepLeavesTurn(s, e.i, e.o, d, j);
      }
    } else {
      assert t.published == s.published;
      assert forall j | 0 <= j < |t.runs| && Publishing(t, j, d) :: j < |s.runs| && t.runs[j] == s.runs[j] && Publishing(s, j, d);
    }
  }

  lemma {:induction false} SerialTurnOk(seed: seq<PublishedRow>, events: seq<Event>, d: string)
    requires ValidSeed(seed) && Increasing(seed, d) && Serial(Init(seed), events, d)
    ensures TurnOk(Exec(Init(seed), events), d)
  {
    if events != [] {
      var before := events[..|events| - 1];
      SerialTurnOk(seed, before, d);
      ReachableInv(seed, before);
      ApplyKeepsTurnOk(Exec(Init(seed), before), events[|events| - 1], d);
    }
  }

  // ---------------------------------------------------------------- when the view shows the last record

  predicate IsLast(rows: seq<PublishedRow>, d: string, k: nat) {
    k < |rows| && rows[k].key == d && forall l | k < l < |rows| :: rows[l].key != d
  }

  /** The view shows exactly the last committed record of d, without ties. */
  ghost predicate ViewIsLast(rows: seq<PublishedRow>, d: string) {
    forall k: nat :: IsLatest(rows, d, k) <==> IsLast(rows, d, k)
  }

  /** In every state along the run, its first included. */
  ghost predicate AlwaysLast(seed: seq<PublishedRow>, events: seq<Event>, d: string) {
    && ViewIsLast(Exec(Init(seed), events).published, d)
    && (events != [] ==> AlwaysLast(seed, events[..|events| - 1], d))
  }

  predicate StampedAbove(rows: seq<PublishedRow>, d: string, p: PublishedRow) {
    p.key == d ==> forall q <- rows :: q.key == d ==> q.publishedAt < p.publishedAt
  }

  /** Every record of d from position n on is stamped above all committed before it. */
  ghost predicate IncreasingFrom(rows: seq<PublishedRow>, d: string, n: nat) {
    forall l | n <= l < |rows| :: StampedAbove(rows[..l], d, rows[l])
  }

  lemma LastInAppended(rows: seq<PublishedRow>, p: PublishedRow, d: string)
    requires p.key == d
    ensures IsLast(rows + [p], d, |rows|)
    ensures forall k: nat :: k != |rows| ==> !IsLast(rows + [p], d, k)
  {
    assert (rows + [p])[|rows|] == p;
  }

  lemma AppendedView(rows: seq<PublishedRow>, p: PublishedRow, d: string)
    requires ViewIsLast(rows, d)
    ensures ViewIsLast(rows + [p], d) <==> StampedAbove(rows, d, p)
  {
    var more := rows + [p];
    if p.key == d {
      LastInAppended(rows, p, d);
      if StampedAbove(rows, d, p) {
        assert IsLatest(more, d, |rows|);
        forall k: nat | k != |rows| ensures !IsLatest(more, d, k) {
          assert p in more;
        }
      } else if ViewIsLast(more, d) {
        var q :| q in rows && q.key == d && q.publishedAt >= p.publishedAt;
        TiedView(rows, p, d, q);
      }
    } else {
      forall k: nat ensures IsLatest(more, d, k) <==> IsLatest(rows, d, k) {
        LatestIgnoresOthers(rows, p, d, k);
      }
      forall k: nat ensures IsLast(more, d, k) <==> IsLast(rows, d, k) {
        LastIgnoresOthers(rows, p, d, k);
      }
    }
  }

  /** A row stamped no later than one before it is not the only latest one. */
  lemma TiedView(rows: seq<PublishedRow>, p: PublishedRow, d: string, q: PublishedRow)
    requires q in rows && q.key == p.key == d && q.publishedAt >= p.publishedAt
    ensures !ViewIsLast(rows + [p], d)
  {
    var more := rows + [p];
    LastInAppended(rows, p, d);
    var k :| 0 <= k < |rows| && rows[k] == q;
    assert more[k] == q && q in more;
    if IsLatest(more, d, |rows|) {
      assert IsLatest(more, d, k);
    }
  }

  lemma LatestIgnoresOthers(rows: seq<PublishedRow>, p: PublishedRow, d: string, k: nat)
    requires p.key != d
    ensures IsLatest(rows + [p], d, k) <==> IsLatest(rows, d, k)
  {
    var more := rows + [p];
    assert more[|rows|] == p;
    assert forall r <- rows :: r in more;
  }

  lemma LastIgnoresOthers(rows: seq<PublishedRow>, p: PublishedRow, d: string, k: nat)
    requires p.key != d
    ensures IsLast(rows + [p], d, k) <==> IsLast(rows, d, k)
  {
    var more := rows + [p];
    assert more[|rows|] == p;
    if IsLast(more, d, k) {
      assert forall l | k < l < |rows| :: rows[l] == more[l];
    }
  }

  lemma IncreasingAppended(rows: seq<PublishedRow>, p: PublishedRow, d: string, n: nat)
    requires n <= |rows|
    ensures IncreasingFrom(rows + [p], d, n) <==> IncreasingFrom(rows, d, n) && StampedAbove(rows, d, p)
  {
    var more := rows + [p];
    assert more[..|rows|] == rows && more[|rows|] == p;
    assert forall l | n <= l < |rows| :: more[..l] == rows[..l] && more[l] == rows[l];
    if IncreasingFrom(more, d, n) {
      assert StampedAbove(more[..|rows|], d, more[|rows|]);
      forall l | n <= l < |rows| ensures StampedAbove(rows[..l], d, rows[l]) {
        assert StampedAbove(more[..l], d, more[l]);
      }
    }
  }

  /** An event publishes at most one row. */
  lemma ApplyPublishesOne(s: State, e: Event) returns (p: Option<PublishedRow>)
    ensures Apply(s, e).published == s.published + Opt(p)
  {
    if e.Step? && e.i < |s.runs| && StepOf(s, e.i, e.o).Next? && StepOf(s, e.i, e.o).commits {
      p := s.runs[e.i].txn.published;
    } else {
      p := None;
    }
  }

  /** The view shows exactly the last committed record of d in every state of a run if and only if
      it does at the start and every record of d committed since is stamped above all before it. */
  lemma {:induction false} ViewIsLastIffIncreasing(seed: seq<PublishedRow>, events: seq<Event>, d: string)
    ensures |seed| <= |Exec(Init(seed), events).published|
    ensures AlwaysLast(seed, events, d) <==>
      ViewIsLast(seed, d) && IncreasingFrom(Exec(Init(seed), events).published, d, |seed|)
  {
    if events != [] {
      var before, e := events[..|events| - 1], events[|events| - 1];
      var s := Exec(Init(seed), before);
      ViewIsLastIffIncreasing(seed, before, d);
      var p := ApplyPublishesOne(s, e);
      match p
      case None => assert Apply(s, e).published == s.published;
      case Some(row) =>
        IncreasingAppended(s.published, row, d, |seed|);
        if AlwaysLast(seed, before, d) {
          AlwaysLastNow(seed, before, d);
          AppendedView(s.published, row, d);
        }
    }
  }

  lemma AlwaysLastNow(seed: seq<PublishedRow>, events: seq<Event>, d: string)
    requires AlwaysLast(seed, events, d)
    ensures ViewIsLast(Exec(Init(seed), events).published, d)
  {
  }

  /** When publishes of a dataset do not overlap and their clock readings increase, the view shows
      exactly the last committed record, without ties. */
  lemma {:induction false} LatestIsLastCommitted(seed: seq<PublishedRow>, events: seq<Event>, d: string)
    requires ValidSeed(seed) && Increasing(seed, d) && Serial(Init(seed), events, d)
    ensures ViewIsLast(Exec(Init(seed), events).published, d)
  {
    SerialTurnOk(seed, events, d);
    IncreasingView(Exec(Init(seed), events).published, d);
  }

  lemma {:induction false} IncreasingView(rows: seq<PublishedRow>, d: string)
    requires Increasing(rows, d)
    ensures ViewIsLast(rows, d)
  {
    if rows != [] {
      var n := |rows| - 1;
      assert rows == rows[..n] + [rows[n]];
      IncreasingView(rows[..n], d);
      AppendedView(rows[..n], rows[n], d);
    }
  }
}
