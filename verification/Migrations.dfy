/** db/migrations/run_migrations.py: one transaction per file, tracked by file name. */
module Migrations {
  import opened Wrappers

  datatype File = File(name: string, sql: string)

  /** The schema and the tracking table; None while the table does not exist. */
  datatype Database<S> = Database(schema: S, tracked: Option<seq<string>>)

  /** The names of the first n files, in order. */
  function Names(files: seq<File>, n: nat): seq<string>
    requires n <= |files|
  {
    if n == 0 then [] else Names(files, n - 1) + [files[n - 1].name]
  }

  function TrackedNames<S>(db: Database<S>): seq<string> {
    match db.tracked case None => [] case Some(names) => names
  }

  predicate DistinctNames(files: seq<File>) {
    forall i, j | 0 <= i < j < |files| :: files[i].name != files[j].name
  }

  /** One migration transaction: the script, then its name unless already there. */
  function Migrate<S>(exec: (S, string) -> S, db: Database<S>, file: File): Database<S> {
    Database(exec(db.schema, file.sql),
             Some(if file.name in TrackedNames(db) then TrackedNames(db) else TrackedNames(db) + [file.name]))
  }

  /** The pass over the first n files, applying the untracked ones in order. */
  function Pass<S>(exec: (S, string) -> S, db: Database<S>, files: seq<File>, n: nat): Database<S>
    requires n <= |files|
  {
    if n == 0 then db.(tracked := Some(TrackedNames(db)))
    else
      var before := Pass(exec, db, files, n - 1);
      if files[n - 1].name in TrackedNames(before) then before else Migrate(exec, before, files[n - 1])
  }

  datatype Ending = Completed | Raised

  datatype Fault = NoFault | Fails | FailsAfterCommit

  /** What goes wrong at the statements about one file: the lookup, the script with its record, and
      the commit. */
  datatype FileFaults = FileFaults(lookup: Fault, script: Fault, commit: Fault)

  /** File i is not passed: its lookup fails, or it is not tracked yet and its transaction fails. */
  predicate Stops<S>(exec: (S, string) -> S, db: Database<S>, files: seq<File>, faults: nat -> FileFaults, i: nat)
    requires i < |files|
  {
    || faults(i).lookup != NoFault
    || (files[i].name !in TrackedNames(Pass(exec, db, files, i))
        && (faults(i).script != NoFault || faults(i).commit != NoFault))
  }

  /** The file's transaction reaches the server. */
  predicate Executes(file: File, faults: FileFaults, tracked: seq<string>) {
    file.name !in tracked && faults.lookup == NoFault && faults.script == NoFault && faults.commit != Fails
  }

  /** Where file i stops the call: before it, or after it if the commit had reached the server. */
  function StoppedAt<S>(exec: (S, string) -> S, db: Database<S>, files: seq<File>, faults: nat -> FileFaults, i: nat): Database<S>
    requires i < |files|
  {
    if faults(i).lookup == NoFault && faults(i).script == NoFault && faults(i).commit == FailsAfterCommit
    then Pass(exec, db, files, i + 1) else Pass(exec, db, files, i)
  }

  /** How the statements about one file change the database. */
  ghost predicate Ends<S>(exec: (S, string) -> S, file: File, faults: FileFaults, before: Database<S>, after: Database<S>, ending: Ending) {
    && (ending.Raised? <==>
          || faults.lookup != NoFault
          || (file.name !in TrackedNames(before) && (faults.script != NoFault || faults.commit != NoFault)))
    && after == if Executes(file, faults, TrackedNames(before)) then Migrate(exec, before, file) else before
  }

  lemma FileDone<S>(
      exec: (S, string) -> S, start: Database<S>, files: seq<File>, faults: nat -> FileFaults, i: nat,
      before: Database<S>, after: Database<S>, ending: Ending)
    requires NoneStops(exec, start, files, faults, i) && i < |files|
    requires before == Pass(exec, start, files, i) && Ends(exec, files[i], faults(i), before, after, ending)
    ensures ending.Raised? ==> StopsFirst(exec, start, files, faults, i) && after == StoppedAt(exec, start, files, faults, i)
    ensures ending.Raised? ==> PassedSome(exec, start, files, after)
    ensures ending.Completed? ==> NoneStops(exec, start, files, faults, i + 1) && after == Pass(exec, start, files, i + 1)
  {
  }

  /** Some first files were passed. */
  ghost predicate PassedSome<S>(exec: (S, string) -> S, start: Database<S>, files: seq<File>, db: Database<S>) {
    exists n: nat | n <= |files| :: db == Pass(exec, start, files, n)
  }

  /** The first n files are all passed. */
  ghost predicate NoneStops<S>(exec: (S, string) -> S, start: Database<S>, files: seq<File>, faults: nat -> FileFaults, n: nat) {
    n <= |files| && forall j | 0 <= j < n :: !Stops(exec, start, files, faults, j)
  }

  /** Every file before the i-th is passed, and the i-th stops the call. */
  ghost predicate StopsFirst<S>(exec: (S, string) -> S, start: Database<S>, files: seq<File>, faults: nat -> FileFaults, i: nat) {
    i < |files| && Stops(exec, start, files, faults, i) && NoneStops(exec, start, files, faults, i)
  }

  lemma OneStopsFirst<S>(exec: (S, string) -> S, start: Database<S>, files: seq<File>, faults: nat -> FileFaults, i: nat)
    requires StopsFirst(exec, start, files, faults, i)
    ensures !NoneStops(exec, start, files, faults, |files|)
    ensures forall j | StopsFirst(exec, start, files, faults, j) :: j == i
  {
  }

  class Runner<S(!new)> {
    /** What a script does to the schema. */
    const exec: (S, string) -> S
    var db: Database<S>

    constructor (exec: (S, string) -> S, db: Database<S>)
      ensures this.exec == exec && this.db == db
    {
      this.exec := exec;
      this.db := db;
    }

    /** `run_migrations`: any statement or commit may fail, and the process may be interrupted at
        any of them, as the faults given say. The call completes exactly if no file stops it, with
        the whole pass; otherwise it ends at the first file that does, having committed exactly the
        pass up to it. */
    method RunMigrations(files: seq<File>, created: Fault, faults: nat -> FileFaults) returns (ending: Ending)
      modifies this
      ensures files == [] ==> db == old(db) && ending == Completed
      ensures db == old(db) || PassedSome(exec, old(db), files, db)
      ensures files != [] && ending.Completed? ==> db == Pass(exec, old(db), files, |files|)
      ensures files != [] ==>
        (ending.Completed? <==> created == NoFault && NoneStops(exec, old(db), files, faults, |files|))
      ensures files != [] && created == Fails ==> db == old(db)
      ensures files != [] && created == FailsAfterCommit ==> db == Pass(exec, old(db), files, 0)
      ensures created == NoFault ==>
        forall i: nat | StopsFirst(exec, old(db), files, faults, i) :: db == StoppedAt(exec, old(db), files, faults, i)
    {
      if files == [] {
        return Completed;
      }
      ghost var start := db;
      // CREATE TABLE IF NOT EXISTS, committed on its own.
      if created == Fails {
        return Raised;
      }
      db := db.(tracked := Some(TrackedNames(db)));
      assert db == Pass(exec, start, files, 0);
      if created == FailsAfterCommit {
        return Raised;
      }
      for i := 0 to |files|
        invariant db == Pass(exec, start, files, i)
        invariant NoneStops(exec, start, files, faults, i)
      {
        ghost var before := db;
        var ended := One(files[i], faults(i));
        FileDone(exec, start, files, faults, i, before, db, ended);
        if ended.Raised? {
          OneStopsFirst(exec, start, files, faults, i);
          return Raised;
        }
      }
      return Completed;
    }

    /** The loop body: one file. */
    method One(file: File, faults: FileFaults) returns (ending: Ending)
      modifies this
      ensures Ends(exec, file, faults, old(db), db, ending)
    {
      if faults.lookup != NoFault {
        return Raised;
      }
      if file.name in TrackedNames(db) {
        return Completed;
      }
      // One transaction: the script, then INSERT .. ON CONFLICT DO NOTHING.
      var schema := exec(db.schema, file.sql);
      if faults.script != NoFault || faults.commit == Fails {
        return Raised;
      }
      var names := if file.name in TrackedNames(db) then TrackedNames(db) else TrackedNames(db) + [file.name];
      db := Database(schema, Some(names));
      return if faults.commit == FailsAfterCommit then Raised else Completed;
    }
  }

  // ---------------------------------------------------------------- crash and restart

  /** The scripts of the first n files, in order. */
  function Fold<S>(exec: (S, string) -> S, empty: S, files: seq<File>, n: nat): S
    requires n <= |files|
  {
    if n == 0 then empty else exec(Fold(exec, empty, files, n - 1), files[n - 1].sql)
  }

  /** The schema is the fold of the first n files and the table lists exactly those. */
  ghost predicate AtPrefix<S>(exec: (S, string) -> S, empty: S, db: Database<S>, files: seq<File>, n: nat) {
    && n <= |files|
    && db.schema == Fold(exec, empty, files, n)
    && TrackedNames(db) == Names(files, n)
  }

  /** File i is among the first m names exactly when i < m. */
  lemma {:induction false} TrackedPrefix(files: seq<File>, m: nat, i: nat)
    requires DistinctNames(files) && m <= |files| && i < |files|
    ensures files[i].name in Names(files, m) <==> i < m
  {
    if m > 0 {
      TrackedPrefix(files, m - 1, i);
    }
  }

  lemma MigrateExtendsPrefix<S>(exec: (S, string) -> S, empty: S, db: Database<S>, files: seq<File>, m: nat)
    requires DistinctNames(files) && m < |files| && AtPrefix(exec, empty, db, files, m)
    ensures AtPrefix(exec, empty, Migrate(exec, db, files[m]), files, m + 1)
  {
    TrackedPrefix(files, m, m);
  }

  lemma {:induction false} PassSkipsTracked<S>(exec: (S, string) -> S, db: Database<S>, files: seq<File>, n: nat)
    requires n <= |files| && forall k | 0 <= k < n :: files[k].name in TrackedNames(db)
    ensures Pass(exec, db, files, n) == db.(tracked := Some(TrackedNames(db)))
  {
    if n > 0 {
      PassSkipsTracked(exec, db, files, n - 1);
    }
  }

  /** The files of the prefix are skipped. */
  lemma PassSkipsPrefix<S>(exec: (S, string) -> S, empty: S, db: Database<S>, files: seq<File>, m: nat, n: nat)
    requires DistinctNames(files) && AtPrefix(exec, empty, db, files, m) && n <= m
    ensures Pass(exec, db, files, n) == db.(tracked := Some(TrackedNames(db)))
  {
    forall k | 0 <= k < n ensures files[k].name in TrackedNames(db) {
      TrackedPrefix(files, m, k);
    }
    PassSkipsTracked(exec, db, files, n);
  }

  lemma PassNext<S>(exec: (S, string) -> S, db: Database<S>, files: seq<File>, n: nat)
    requires 0 < n <= |files|
    ensures var before := Pass(exec, db, files, n - 1); var file := files[n - 1];
      Pass(exec, db, files, n) == if file.name in TrackedNames(before) then before else Migrate(exec, before, file)
  {
  }

  /** A pass that has reached prefix k takes the database to prefix k + 1. */
  lemma NextFile<S>(exec: (S, string) -> S, empty: S, db: Database<S>, files: seq<File>, k: nat)
    requires DistinctNames(files) && k < |files| && AtPrefix(exec, empty, Pass(exec, db, files, k), files, k)
    ensures AtPrefix(exec, empty, Pass(exec, db, files, k + 1), files, k + 1)
  {
    TrackedPrefix(files, k, k);
    PassNext(exec, db, files, k + 1);
    MigrateExtendsPrefix(exec, empty, Pass(exec, db, files, k), files, k);
  }

  lemma PassStaysAtPrefix<S>(exec: (S, string) -> S, empty: S, db: Database<S>, files: seq<File>, m: nat, n: nat)
    requires DistinctNames(files) && AtPrefix(exec, empty, db, files, m) && n <= m
    ensures AtPrefix(exec, empty, Pass(exec, db, files, n), files, m)
  {
    PassSkipsPrefix(exec, empty, db, files, m, n);
  }

  ghost predicate Reached<S>(exec: (S, string) -> S, empty: S, db: Database<S>, files: seq<File>, n: nat) {
    n <= |files| && AtPrefix(exec, empty, Pass(exec, db, files, n), files, n)
  }

  lemma ReachedNext<S>(exec: (S, string) -> S, empty: S, db: Database<S>, files: seq<File>, k: nat)
    requires DistinctNames(files) && k < |files| && Reached(exec, empty, db, files, k)
    ensures Reached(exec, empty, db, files, k + 1)
  {
    NextFile(exec, empty, db, files, k);
  }

  lemma {:induction false} PassReaches<S>(
      exec: (S, string) -> S, empty: S, db: Database<S>, files: seq<File>, m: nat, n: nat)
    requires DistinctNames(files) && Reached(exec, empty, db, files, m) && m <= n <= |files|
    ensures Reached(exec, empty, db, files, n)
  {
    if m < n {
      PassReaches(exec, empty, db, files, m, n - 1);
      ReachedNext(exec, empty, db, files, n - 1);
    }
  }

  /** A call on a database at prefix m that gets past n files leaves it at the longer of the two. */
  lemma PassExtendsPrefix<S>(exec: (S, string) -> S, empty: S, db: Database<S>, files: seq<File>, m: nat, n: nat)
    requires DistinctNames(files) && AtPrefix(exec, empty, db, files, m) && n <= |files|
    ensures AtPrefix(exec, empty, Pass(exec, db, files, n), files, if m < n then n else m)
  {
    if n <= m {
      PassStaysAtPrefix(exec, empty, db, files, m, n);
    } else {
      PassStaysAtPrefix(exec, empty, db, files, m, m);
      PassReaches(exec, empty, db, files, m, n);
    }
  }

  /** What a call can leave: nothing done, or the pass over some first files; how far is given. */
  function Attempt<S>(exec: (S, string) -> S, db: Database<S>, files: seq<File>, reached: Option<nat>): Database<S> {
    match reached
    case Some(n) => if n <= |files| && files != [] then Pass(exec, db, files, n) else db
    case None => db
  }

  function Attempts<S>(exec: (S, string) -> S, db: Database<S>, files: seq<File>, reached: seq<Option<nat>>): Database<S> {
    if reached == [] then db
    else Attempt(exec, Attempts(exec, db, files, reached[..|reached| - 1]), files, reached[|reached| - 1])
  }

  /** After any calls, each failed or interrupted anywhere, an initially empty database holds the
      in-order fold of a prefix of the files, and the tracking table is exactly that prefix. */
  lemma {:induction false} InterruptedCallsLeaveAPrefix<S>(
      exec: (S, string) -> S, empty: S, files: seq<File>, reached: seq<Option<nat>>) returns (n: nat)
    requires DistinctNames(files)
    ensures AtPrefix(exec, empty, Attempts(exec, Database(empty, None), files, reached), files, n)
  {
    if reached == [] {
      n := 0;
    } else {
      var before, last := reached[..|reached| - 1], reached[|reached| - 1];
      var m := InterruptedCallsLeaveAPrefix(exec, empty, files, before);
      n := m;
      if last.Some? && last.value <= |files| && files != [] {
        PassExtendsPrefix(exec, empty, Attempts(exec, Database(empty, None), files, before), files, m, last.value);
        n := if m < last.value then last.value else m;
      }
    }
  }

  /** Crash and restart equals one clean run: whatever calls were cut short before, and wherever, a
      call that completes leaves exactly what a single undisturbed call on the empty database leaves,
      and later calls, however they end, change nothing. */
  lemma CrashRestartEqualsCleanRun<S>(
      exec: (S, string) -> S, empty: S, files: seq<File>, reached: seq<Option<nat>>, later: Option<nat>)
    requires DistinctNames(files) && files != []
    ensures var clean := Pass(exec, Database(empty, None), files, |files|);
      && Attempts(exec, Database(empty, None), files, reached + [Some(|files|)]) == clean
      && clean == Database(Fold(exec, empty, files, |files|), Some(Names(files, |files|)))
      && Attempt(exec, clean, files, later) == clean
  {
    var start, all := Database(empty, None), |files|;
    WholePass(exec, empty, start, files, 0);
    var m := InterruptedCallsLeaveAPrefix(exec, empty, files, reached);
    assert (reached + [Some(all)])[..|reached|] == reached;
    WholePass(exec, empty, Attempts(exec, start, files, reached), files, m);
    if later.Some? && later.value <= all {
      PassSkipsPrefix(exec, empty, Pass(exec, start, files, all), files, all, later.value);
    }
  }

  /** From any prefix, the whole pass ends at the fold of all the files. */
  lemma WholePass<S>(exec: (S, string) -> S, empty: S, db: Database<S>, files: seq<File>, m: nat)
    requires DistinctNames(files) && AtPrefix(exec, empty, db, files, m)
    ensures Pass(exec, db, files, |files|) == Database(Fold(exec, empty, files, |files|), Some(Names(files, |files|)))
  {
    PassExtendsPrefix(exec, empty, db, files, m, |files|);
    PassIsTracked(exec, db, files, |files|);
  }

  lemma {:induction false} PassIsTracked<S>(exec: (S, string) -> S, db: Database<S>, files: seq<File>, n: nat)
    requires n <= |files|
    ensures Pass(exec, db, files, n).tracked.Some?
  {
    if n > 0 {
      PassIsTracked(exec, db, files, n - 1);
    }
  }

  /** The fixed file set matters: a file that appears later but sorts before an applied one is
      executed after it. */
  lemma LateFileRunsOutOfOrder<S>(exec: (S, string) -> S, empty: S, a: File, b: File)
    requires a.name != b.name
    ensures var first := Pass(exec, Database(empty, None), [b], 1);
      Pass(exec, first, [a, b], 2) == Database(exec(exec(empty, b.sql), a.sql), Some([b.name, a.name]))
  {
    var start := Database(empty, Some([]));
    assert Pass(exec, Database(empty, None), [b], 0) == start;
    MigrateUntracked(exec, start, b);
    var first := Migrate(exec, start, b);
    assert [] + [b.name] == [b.name];
    assert Pass(exec, Database(empty, None), [b], 1) == first;
    assert Pass(exec, first, [a, b], 0) == first;
    MigrateUntracked(exec, first, a);
    assert [b.name] + [a.name] == [b.name, a.name];
    assert Pass(exec, first, [a, b], 1) == Migrate(exec, first, a);
  }

  lemma MigrateUntracked<S>(exec: (S, string) -> S, db: Database<S>, file: File)
    requires file.name !in TrackedNames(db)
    ensures Migrate(exec, db, file) == Database(exec(db.schema, file.sql), Some(TrackedNames(db) + [file.name]))
  {
  }
}
