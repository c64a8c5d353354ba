/** backends/postgres/connection.py: the lazily built pool behind double-checked locking, one step
    per read or write of the module-level variable. */
module Pool {
  import opened Wrappers

  /** Where a thread is in `_get_pool` or `close_pool`. `return _pool` reads the variable again. */
  datatype Pc =
    | Check            // if _pool is not None
    | FastReturn       // return _pool, without the lock
    | Acquire          // with _pool_lock
    | Recheck          // the second test, holding the lock
    | LockedReturn     // return _pool, holding the lock
    | Build            // construct, holding the lock
    | Unlock           // leave the with block
    | FinalReturn      // return _pool, after the with block
    | Got(pool: Option<nat>)
    | Raised
    | CloseAcquire     // close_pool: with _pool_lock
    | CloseClear       // closeall, _pool = None
    | Closed

  /** `built` counts successful constructions; pools are numbered by it. */
  datatype State = State(pool: Option<nat>, lock: Option<nat>, built: nat, threads: seq<Pc>)

  datatype Event = Enter | EnterClose | Step(t: nat, fails: bool)

  predicate Holding(pc: Pc) {
    pc.Recheck? || pc.LockedReturn? || pc.Build? || pc.Unlock? || pc.CloseClear?
  }

  function Go(s: State, t: nat, pc: Pc): State
    requires t < |s.threads|
  {
    s.(threads := s.threads[t := pc])
  }

  function Advance(s: State, t: nat, fails: bool): State
    requires t < |s.threads|
  {
    match s.threads[t]
    case Check => Go(s, t, if s.pool.Some? then FastReturn else Acquire)
    case FastReturn => Go(s, t, Got(s.pool))
    case Acquire => if s.lock.Some? then s else Go(s, t, Recheck).(lock := Some(t))
    case Recheck => Go(s, t, if s.pool.Some? then LockedReturn else Build)
    case LockedReturn => Go(s, t, Got(s.pool)).(lock := None)
    case Build =>
      // missing settings or a failed connection: the exception releases the lock
      if fails then Go(s, t, Raised).(lock := None)
      else Go(s, t, Unlock).(pool := Some(s.built), built := s.built + 1)
    case Unlock => Go(s, t, FinalReturn).(lock := None)
    case FinalReturn => Go(s, t, Got(s.pool))
    case CloseAcquire => if s.lock.Some? then s else Go(s, t, CloseClear).(lock := Some(t))
    case CloseClear => Go(s, t, Closed).(pool := None, lock := None)
    case _ => s
  }

  function Apply(s: State, e: Event): State {
    match e
    case Enter => s.(threads := s.threads + [Check])
    case EnterClose => s.(threads := s.threads + [CloseAcquire])
    case Step(t, fails) => if t < |s.threads| then Advance(s, t, fails) else s
  }

  function Exec(s: State, events: seq<Event>): State {
    if events == [] then s
    else Apply(Exec(s, events[..|events| - 1]), events[|events| - 1])
  }

  const INIT := State(None, None, 0, [])

  /** The lock is held by exactly the thread in its critical section. */
  ghost predicate LockOk(s: State) {
    forall t | 0 <= t < |s.threads| :: Holding(s.threads[t]) <==> s.lock == Some(t)
  }

  ghost predicate LockHeld(s: State) {
    s.lock.Some? ==> s.lock.value < |s.threads|
  }

  lemma ApplyKeepsLock(s: State, e: Event)
    requires LockOk(s) && LockHeld(s)
    ensures LockOk(Apply(s, e)) && LockHeld(Apply(s, e))
  {
    var u := Apply(s, e);
    forall t | 0 <= t < |u.threads| ensures Holding(u.threads[t]) <==> u.lock == Some(t) {
      if t < |s.threads| {
        assert Holding(s.threads[t]) <==> s.lock == Some(t);
      }
      if e.Step? && e.t < |s.threads| {
        assert Holding(s.threads[e.t]) <==> s.lock == Some(e.t);
      }
    }
  }

  /** Mutual exclusion, whatever fails and also with `close_pool`: the lock is free exactly when no
      thread is inside, and at most one thread is. */
  lemma {:induction false} LockIsExact(events: seq<Event>)
    ensures var s := Exec(INIT, events);
      && LockOk(s) && LockHeld(s)
      && (s.lock.None? <==> forall pc <- s.threads :: !Holding(pc))
      && (forall t, u | 0 <= t < |s.threads| && 0 <= u < |s.threads| && Holding(s.threads[t]) && Holding(s.threads[u]) :: t == u)
  {
    if events != [] {
      LockIsExact(events[..|events| - 1]);
      ApplyKeepsLock(Exec(INIT, events[..|events| - 1]), events[|events| - 1]);
    }
    var s := Exec(INIT, events);
    if s.lock.Some? {
      assert Holding(s.threads[s.lock.value]) && s.threads[s.lock.value] in s.threads;
    }
  }

  ghost predicate NeverClosed(events: seq<Event>) {
    forall e <- events :: !e.EnterClose?
  }

  /** Without closing: the variable is set once, and whoever saw it set gets that pool. */
  ghost predicate OnePool(s: State) {
    && s.built <= 1 && s.pool == (if s.built == 1 then Some(0) else None)
    && (forall pc <- s.threads :: ThreadOk(s, pc))
  }

  predicate ThreadOk(s: State, pc: Pc) {
    && !pc.CloseAcquire? && !pc.CloseClear? && !pc.Closed?
    && (pc.FastReturn? || pc.LockedReturn? || pc.Unlock? || pc.FinalReturn? ==> s.pool == Some(0))
    && (pc.Build? ==> s.pool.None?)
    && (pc.Got? ==> pc.pool == Some(0) && s.pool == Some(0))
  }

  lemma ApplyKeepsOnePool(s: State, e: Event)
    requires OnePool(s) && LockOk(s) && !e.EnterClose?
    ensures OnePool(Apply(s, e))
  {
    var u := Apply(s, e);
    forall pc <- u.threads ensures ThreadOk(u, pc) {
      var t :| 0 <= t < |u.threads| && u.threads[t] == pc;
      if t < |s.threads| {
        assert s.threads[t] in s.threads && ThreadOk(s, s.threads[t]);
        assert Holding(s.threads[t]) <==> s.lock == Some(t);
      }
      if e.Step? && e.t < |s.threads| {
        assert s.threads[e.t] in s.threads && ThreadOk(s, s.threads[e.t]);
        assert Holding(s.threads[e.t]) <==> s.lock == Some(e.t);
      }
    }
    if e.Step? && e.t < |s.threads| {
      assert s.threads[e.t] in s.threads && ThreadOk(s, s.threads[e.t]);
    }
  }

  /** Single pool: with any number of interleaved callers and failing constructions, and no
      `close_pool`, at most one construction succeeds and every caller that returns gets that pool. */
  lemma {:induction false} SinglePool(events: seq<Event>)
    requires NeverClosed(events)
    ensures var s := Exec(INIT, events);
      && OnePool(s)
      && forall pc <- s.threads :: pc.Got? ==> pc.pool == Some(0) && s.built == 1
  {
    if events != [] {
      var before := events[..|events| - 1];
      SinglePool(before);
      LockIsExact(before);
      ApplyKeepsOnePool(Exec(INIT, before), events[|events| - 1]);
    }
    var s := Exec(INIT, events);
    assert forall pc <- s.threads :: ThreadOk(s, pc);
  }

  lemma Then(events: seq<Event>, s: State, e: Event, u: State)
    requires Exec(INIT, events) == s && Apply(s, e) == u
    ensures Exec(INIT, events + [e]) == u
  {
    assert (events + [e])[..|events|] == events;
  }

  /** Two threads, the second closing, and what the first does before it. */
  lemma FirstThreadBuilds() returns (es: seq<Event>)
    ensures Exec(INIT, es) == State(Some(0), None, 1, [FinalReturn, CloseAcquire])
  {
    var go := Step(0, false);
    assert [Check] + [CloseAcquire] == [Check, CloseAcquire];
    Then([], INIT, Enter, State(None, None, 0, [Check]));
    es := [] + [Enter];
    Then(es, State(None, None, 0, [Check]), EnterClose, State(None, None, 0, [Check, CloseAcquire]));
    es := es + [EnterClose];
    Then(es, State(None, None, 0, [Check, CloseAcquire]), go, State(None, None, 0, [Acquire, CloseAcquire]));
    es := es + [go];
    Then(es, State(None, None, 0, [Acquire, CloseAcquire]), go, State(None, Some(0), 0, [Recheck, CloseAcquire]));
    es := es + [go];
    Then(es, State(None, Some(0), 0, [Recheck, CloseAcquire]), go, State(None, Some(0), 0, [Build, CloseAcquire]));
    es := es + [go];
    Then(es, State(None, Some(0), 0, [Build, CloseAcquire]), go, State(Some(0), Some(0), 1, [Unlock, CloseAcquire]));
    es := es + [go];
    Then(es, State(Some(0), Some(0), 1, [Unlock, CloseAcquire]), go, State(Some(0), None, 1, [FinalReturn, CloseAcquire]));
    es := es + [go];
  }

  /** With `close_pool` the promise fails: a caller that built the pool reads the variable again to
      return it, and returns None if a close came in between. */
  lemma CloseCanYieldNone()
    ensures exists events :: Exec(INIT, events) == State(None, None, 1, [Got(None), Closed])
  {
    var es := FirstThreadBuilds();
    var s := State(Some(0), Some(1), 1, [FinalReturn, CloseClear]);
    Then(es, State(Some(0), None, 1, [FinalReturn, CloseAcquire]), Step(1, false), s);
    es := es + [Step(1, false)];
    Then(es, s, Step(1, false), State(None, None, 1, [FinalReturn, Closed]));
    es := es + [Step(1, false)];
    Then(es, State(None, None, 1, [FinalReturn, Closed]), Step(0, false), State(None, None, 1, [Got(None), Closed]));
  }

  // ---------------------------------------------------------------- exactly when a caller gets None

  /** A run with all its states. */
  datatype Trace = Trace(states: seq<State>, events: seq<Event>) {
    ghost predicate Valid() {
      && |states| == |events| + 1 && states[0] == INIT
      && forall k | 0 <= k < |events| :: Happens(k)
    }

    ghost predicate Happens(k: nat)
      requires k < |events| < |states|
    {
      states[k + 1] == Apply(states[k], events[k])
    }
  }

  /** Every event sequence is that of a trace, which ends where it does. */
  lemma {:induction false} EventsHaveTrace(events: seq<Event>) returns (h: Trace)
    ensures h.Valid() && h.events == events && h.states[|events|] == Exec(INIT, events)
  {
    if events == [] {
      h := Trace([INIT], []);
    } else {
      var n := |events| - 1;
      var g := EventsHaveTrace(events[..n]);
      h := Trace(g.states + [Exec(INIT, events)], events);
      forall k | 0 <= k < |events| ensures h.Happens(k) {
        assert k < n ==> g.Happens(k);
      }
    }
  }

  predicate BuildsIn(s: State, e: Event) {
    e.Step? && e.t < |s.threads| && s.threads[e.t].Build? && !e.fails
  }

  predicate ClearsIn(s: State, e: Event) {
    e.Step? && e.t < |s.threads| && s.threads[e.t].CloseClear?
  }

  /** Thread t sees a pool: in its test without the lock, or by building it. */
  predicate SeesIn(s: State, e: Event, t: nat) {
    e.Step? && e.t == t < |s.threads| && ((s.threads[t].Check? && s.pool.Some?) || BuildsIn(s, e))
  }

  /** Thread t reads the variable, outside the lock, to return it. */
  predicate ReadsIn(s: State, e: Event, t: nat) {
    e.Step? && e.t == t < |s.threads| && (s.threads[t].FastReturn? || s.threads[t].FinalReturn?)
  }

  /** After event m and before event n a close emptied the variable, and no build filled it again. */
  ghost predicate ClearedBetween(h: Trace, m: nat, n: nat)
    requires h.Valid() && n <= |h.events|
  {
    exists c: nat :: m < c < n && ClearedAt(h, c, n)
  }

  ghost predicate ClearedAt(h: Trace, c: nat, n: nat)
    requires h.Valid() && c < n <= |h.events|
  {
    ClearsIn(h.states[c], h.events[c]) && forall b | c < b < n :: !BuildsIn(h.states[b], h.events[b])
  }

  /** Event n is the read with which thread t returns, and between its sight of a pool and that read
      a close emptied the variable for good. */
  ghost predicate LosesPool(h: Trace, t: nat, n: nat)
    requires h.Valid() && n < |h.events|
  {
    && ReadsIn(h.states[n], h.events[n], t)
    && exists m: nat :: m < n && SeesIn(h.states[m], h.events[m], t) && ClearedBetween(h, m, n)
  }

  /** Only a build fills the variable, and only a close empties it. */
  lemma PoolWrites(s: State, e: Event)
    ensures BuildsIn(s, e) ==> Apply(s, e).pool.Some?
    ensures ClearsIn(s, e) ==> Apply(s, e).pool.None?
    ensures !BuildsIn(s, e) && !ClearsIn(s, e) ==> Apply(s, e).pool == s.pool
  {
  }

  lemma {:induction false} EmptyAfterClear(h: Trace, c: nat, n: nat)
    requires h.Valid() && c < n <= |h.events| && ClearedAt(h, c, n)
    ensures h.states[n].pool.None?
  {
    assert h.Happens(n - 1);
    PoolWrites(h.states[n - 1], h.events[n - 1]);
    if c < n - 1 {
      EmptyAfterClear(h, c, n - 1);
      assert !BuildsIn(h.states[n - 1], h.events[n - 1]);
    }
  }

  predicate Returning(pc: Pc) {
    pc.FastReturn? || pc.Unlock? || pc.FinalReturn?
  }

  /** A thread comes to return outside the lock only by seeing a pool. */
  lemma ReturningStep(s: State, e: Event, t: nat)
    requires var u := Apply(s, e); t < |u.threads| && Returning(u.threads[t])
    ensures t < |s.threads|
    ensures (Returning(s.threads[t]) && !SeesIn(s, e, t)) || (SeesIn(s, e, t) && Apply(s, e).pool.Some?)
  {
  }

  /** It saw a pool before event n, and finds the variable empty only after a close. */
  ghost predicate SawOnce(h: Trace, t: nat, n: nat)
    requires h.Valid() && n <= |h.events|
  {
    exists m: nat :: m < n && SeesIn(h.states[m], h.events[m], t) && (h.states[n].pool.None? ==> ClearedBetween(h, m, n))
  }

  lemma ClearedNext(h: Trace, m: nat, n: nat)
    requires h.Valid() && m < n < |h.events| && (h.states[n].pool.None? ==> ClearedBetween(h, m, n))
    ensures h.states[n + 1].pool.None? ==> ClearedBetween(h, m, n + 1)
  {
    assert h.Happens(n);
    PoolWrites(h.states[n], h.events[n]);
    if h.states[n + 1].pool.None? {
      if ClearsIn(h.states[n], h.events[n]) {
        assert ClearedAt(h, n, n + 1);
      } else {
        var c: nat :| m < c < n && ClearedAt(h, c, n);
        assert ClearedAt(h, c, n + 1);
      }
    }
  }

  lemma {:induction false} ReturningSaw(h: Trace, t: nat, n: nat)
    requires h.Valid() && n <= |h.events| && t < |h.states[n].threads| && Returning(h.states[n].threads[t])
    ensures SawOnce(h, t, n)
  {
    assert n > 0;
    assert h.Happens(n - 1);
    ReturningStep(h.states[n - 1], h.events[n - 1], t);
    if SeesIn(h.states[n - 1], h.events[n - 1], t) {
      assert h.states[n].pool.Some?;
    } else {
      ReturningSaw(h, t, n - 1);
      var m: nat :| m < n - 1 && SeesIn(h.states[m], h.events[m], t)
        && (h.states[n - 1].pool.None? ==> ClearedBetween(h, m, n - 1));
      ClearedNext(h, m, n - 1);
    }
  }

  /** Whoever leaves with the lock held has a pool. */
  ghost predicate LockedOk(s: State) {
    forall t | 0 <= t < |s.threads| && (s.threads[t].LockedReturn? || s.threads[t].Unlock?) :: s.pool.Some?
  }

  lemma ApplyKeepsLockedOk(s: State, e: Event)
    requires LockOk(s) && LockedOk(s)
    ensures LockedOk(Apply(s, e))
  {
    var u := Apply(s, e);
    forall t | 0 <= t < |u.threads| && (u.threads[t].LockedReturn? || u.threads[t].Unlock?) ensures u.pool.Some? {
      assert t < |s.threads|;
      assert Holding(s.threads[t]) <==> s.lock == Some(t);
      if e.Step? && e.t < |s.threads| {
        assert Holding(s.threads[e.t]) <==> s.lock == Some(e.t);
      }
    }
  }

  lemma {:induction false} TraceKeepsLock(h: Trace, n: nat)
    requires h.Valid() && n <= |h.events|
    ensures LockOk(h.states[n]) && LockHeld(h.states[n]) && LockedOk(h.states[n])
  {
    if n > 0 {
      TraceKeepsLock(h, n - 1);
      assert h.Happens(n - 1);
      ApplyKeepsLock(h.states[n - 1], h.events[n - 1]);
      ApplyKeepsLockedOk(h.states[n - 1], h.events[n - 1]);
    }
  }

  /** A thread has newly got None only by reading the empty variable. */
  lemma NewNone(s: State, e: Event, t: nat)
    requires t < |s.threads| && LockedOk(s)
    ensures Apply(s, e).threads[t] == Got(None) <==> s.threads[t] == Got(None) || (ReadsIn(s, e, t) && s.pool.None?)
  {
  }

  lemma NotYetThere(s: State, e: Event, t: nat)
    requires |s.threads| <= t < |Apply(s, e).threads|
    ensures !Apply(s, e).threads[t].Got?
  {
  }

  /** The read gives None if and only if the pool was lost. */
  lemma ReadIffLoses(h: Trace, t: nat, n: nat)
    requires h.Valid() && n < |h.events|
    ensures LosesPool(h, t, n) <==> ReadsIn(h.states[n], h.events[n], t) && h.states[n].pool.None?
  {
    if LosesPool(h, t, n) {
      var m: nat :| m < n && SeesIn(h.states[m], h.events[m], t) && ClearedBetween(h, m, n);
      var c: nat :| m < c < n && ClearedAt(h, c, n);
      EmptyAfterClear(h, c, n);
    } else if ReadsIn(h.states[n], h.events[n], t) && h.states[n].pool.None? {
      ReturningSaw(h, t, n);
    }
  }

  /** Closes included, a caller gets None if and only if, between its last sight of a pool (its test
      without the lock, or its own build) and its read of the variable to return it, a close emptied
      the variable and no build filled it again. Whoever finds the pool in the second test, holding
      the lock, is never such a caller. */
  lemma {:induction false} NoneIffClosedInBetween(h: Trace, n: nat, t: nat)
    requires h.Valid() && n <= |h.events| && t < |h.states[n].threads|
    ensures h.states[n].threads[t] == Got(None) <==> exists k: nat :: k < n && LosesPool(h, t, k)
  {
    if n > 0 {
      var s, e := h.states[n - 1], h.events[n - 1];
      assert h.Happens(n - 1);
      ReadIffLoses(h, t, n - 1);
      if t < |s.threads| {
        NoneIffClosedInBetween(h, n - 1, t);
        TraceKeepsLock(h, n - 1);
        NewNone(s, e, t);
      } else {
        NotYetThere(s, e, t);
        NeverRead(h, n, t);
      }
    }
  }

  lemma NeverRead(h: Trace, n: nat, t: nat)
    requires h.Valid() && 0 < n <= |h.events| && |h.states[n - 1].threads| <= t
    ensures forall k: nat :: k < n ==> !LosesPool(h, t, k)
  {
    forall k: nat | k < n ensures !LosesPool(h, t, k) {
      ThreadsStay(h, k, n - 1);
    }
  }

  lemma {:induction false} ThreadsStay(h: Trace, k: nat, n: nat)
    requires h.Valid() && k <= n <= |h.events|
    ensures |h.states[k].threads| <= |h.states[n].threads|
  {
    if k < n {
      ThreadsStay(h, k, n - 1);
      assert h.Happens(n - 1);
    }
  }

  // ---------------------------------------------------------------- who raises, who returns what

  predicate FailsIn(s: State, e: Event, t: nat) {
    e.Step? && e.t == t < |s.threads| && s.threads[t].Build? && e.fails
  }

  /** Whoever constructs found no pool under the lock, and every pool handed out was constructed. */
  ghost predicate BuildsOk(s: State) {
    && (forall t | 0 <= t < |s.threads| && s.threads[t].Build? :: s.pool.None?)
    && (s.pool.Some? ==> s.pool.value < s.built)
    && (forall t | 0 <= t < |s.threads| && s.threads[t].Got? && s.threads[t].pool.Some? :: s.threads[t].pool.value < s.built)
  }

  lemma ApplyKeepsBuildsOk(s: State, e: Event)
    requires LockOk(s) && BuildsOk(s)
    ensures BuildsOk(Apply(s, e))
  {
    var u := Apply(s, e);
    forall t | 0 <= t < |u.threads| && u.threads[t].Build? ensures u.pool.None? {
      assert t < |s.threads|;
      assert Holding(s.threads[t]) <==> s.lock == Some(t);
      if e.Step? && e.t < |s.threads| {
        assert Holding(s.threads[e.t]) <==> s.lock == Some(e.t);
      }
    }
  }

  lemma {:induction false} TraceKeepsBuildsOk(h: Trace, n: nat)
    requires h.Valid() && n <= |h.events|
    ensures BuildsOk(h.states[n])
  {
    if n > 0 {
      TraceKeepsBuildsOk(h, n - 1);
      TraceKeepsLock(h, n - 1);
      assert h.Happens(n - 1);
      ApplyKeepsBuildsOk(h.states[n - 1], h.events[n - 1]);
    }
  }

  lemma NewlyRaised(s: State, e: Event, t: nat)
    requires t < |Apply(s, e).threads|
    ensures Apply(s, e).threads[t].Raised? <==> (t < |s.threads| && s.threads[t].Raised?) || FailsIn(s, e, t)
  {
  }

  /** A caller raises if and only if its own construction failed; it constructs only where it found
      no pool under the lock, and a pool it is given is one that was constructed. */
  lemma {:induction false} RaisesIffOwnBuildFails(h: Trace, n: nat, t: nat)
    requires h.Valid() && n <= |h.events| && t < |h.states[n].threads|
    ensures h.states[n].threads[t].Raised? <==> exists k: nat :: k < n && FailsIn(h.states[k], h.events[k], t)
    ensures h.states[n].threads[t].Build? ==> h.states[n].pool.None?
    ensures forall p: nat :: h.states[n].threads[t] == Got(Some(p)) ==> p < h.states[n].built
  {
    TraceKeepsBuildsOk(h, n);
    if n > 0 {
      assert h.Happens(n - 1);
      NewlyRaised(h.states[n - 1], h.events[n - 1], t);
      if t < |h.states[n - 1].threads| {
        RaisesIffOwnBuildFails(h, n - 1, t);
      } else {
        forall k: nat | k < n ensures !FailsIn(h.states[k], h.events[k], t) {
          ThreadsStay(h, k, n - 1);
        }
      }
    }
  }

  /** The thread goes on alone, without a failing construction. */
  function Alone(s: State, t: nat, n: nat): State
    requires t < |s.threads|
    ensures |Alone(s, t, n).threads| == |s.threads|
    decreases n
  {
    if n == 0 then s else Advance(Alone(s, t, n - 1), t, false)
  }

  /** The fast path: a caller that sees a pool has it two steps later, whoever holds the lock, and
      touches nothing. */
  lemma FastPath(s: State, t: nat, fails: bool, failsToo: bool)
    requires t < |s.threads| && s.threads[t].Check? && s.pool.Some?
    ensures Advance(Advance(s, t, fails), t, failsToo) == s.(threads := s.threads[t := Got(s.pool)])
  {
    assert s.threads[t := FastReturn][t := Got(s.pool)] == s.threads[t := Got(s.pool)];
  }

  /** A caller that finds the lock free and is left alone gets a pool. */
  lemma CallerAloneGetsPool(s: State, t: nat) returns (n: nat)
    requires t < |s.threads| && s.threads[t].Check? && s.lock.None?
    ensures Alone(s, t, n).threads[t].Got? && Alone(s, t, n).threads[t].pool.Some? && Alone(s, t, n).lock.None?
    ensures s.pool.Some? ==> Alone(s, t, n).threads[t] == Got(s.pool) && Alone(s, t, n).built == s.built
  {
    n := 0;
    var u := s;
    while !u.threads[t].Got?
      invariant u == Alone(s, t, n) && |u.threads| == |s.threads|
      invariant !u.threads[t].CloseAcquire? && !u.threads[t].CloseClear? && !u.threads[t].Closed? && !u.threads[t].Raised?
      invariant Holding(u.threads[t]) ==> u.lock == Some(t)
      invariant !Holding(u.threads[t]) ==> u.lock.None?
      invariant u.threads[t].FastReturn? || u.threads[t].LockedReturn? || u.threads[t].Unlock? || u.threads[t].FinalReturn? ==> u.pool.Some?
      invariant u.threads[t].Got? ==> u.threads[t].pool == u.pool && u.pool.Some?
      invariant s.pool.Some? ==> u.pool == s.pool && u.built == s.built && !u.threads[t].Build?
      decreases Left(u.threads[t])
    {
      u := Advance(u, t, false);
      n := n + 1;
    }
  }

  function Left(pc: Pc): nat {
    match pc
    case Check => 7
    case FastReturn => 1
    case Acquire => 6
    case Recheck => 5
    case LockedReturn => 1
    case Build => 4
    case Unlock => 3
    case FinalReturn => 2
    case _ => 0
  }
}
