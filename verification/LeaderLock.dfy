/**
 Leader locks: every core runs each singleton task in its own loop, and before each run tries a
 PostgreSQL advisory lock. Advisory locks belong to a database session and are re-entrant, while
 the lock and unlock queries of a core land on whatever session its pool hands out.
 */
module LeaderLock {
  type Core = string
  type Session = nat
  type LockId = int

  /** An advisory lock that is held: by which session, and how often. */
  datatype Holder = Holder(session: Session, depth: nat)

  /** The loop of one core for one lock; `via` is the session that answered the lock query. */
  datatype Task = Idle | Body(via: Session) | Unlocking

  datatype State = State(
    pool: map<Session, Core>,                 // open sessions
    locks: map<LockId, Holder>,
    tasks: map<(Core, LockId), Task>)

  datatype Step =
    | Open(session: Session, core: Core)
    | Close(session: Session)
    | TryLock(core: Core, lock: LockId, session: Session, answered: bool)
    | EndBody(core: Core, lock: LockId)
    | Unlock(core: Core, lock: LockId, session: Session, delivered: bool)

  predicate Enabled(s: State, step: Step) {
    match step
    case Open(session, _) => session !in s.pool
    case Close(session) => session in s.pool
    case TryLock(core, lock, session, _) =>
      session in s.pool && s.pool[session] == core && (core, lock) in s.tasks && s.tasks[(core, lock)].Idle?
    case EndBody(core, lock) => (core, lock) in s.tasks && s.tasks[(core, lock)].Body?
    case Unlock(core, lock, session, _) =>
      session in s.pool && s.pool[session] == core && (core, lock) in s.tasks && s.tasks[(core, lock)].Unlocking?
  }

  predicate Acquires(s: State, lock: LockId, session: Session) {
    lock !in s.locks || s.locks[lock].session == session
  }

  /** pg_try_advisory_lock: a second lock of the same session only counts up. */
  function Acquire(locks: map<LockId, Holder>, lock: LockId, session: Session): map<LockId, Holder> {
    locks[lock := Holder(session, if lock in locks then locks[lock].depth + 1 else 1)]
  }

  /** pg_advisory_unlock: without effect on a lock that another session holds. */
  function Release(locks: map<LockId, Holder>, lock: LockId, session: Session): map<LockId, Holder> {
    if lock !in locks || locks[lock].session != session then locks
    else if locks[lock].depth <= 1 then locks - {lock}
    else locks[lock := Holder(session, locks[lock].depth - 1)]
  }

  /** A closed session loses all its locks. */
  function ReleaseAll(locks: map<LockId, Holder>, session: Session): map<LockId, Holder> {
    map l | l in locks && locks[l].session != session :: locks[l]
  }

  function Do(s: State, step: Step): State
    requires Enabled(s, step)
  {
    match step
    case Open(session, core) => s.(pool := s.pool[session := core])
    case Close(session) => s.(pool := s.pool - {session}, locks := ReleaseAll(s.locks, session))
    case TryLock(core, lock, session, answered) =>
      if !Acquires(s, lock, session) then s
      else
        s.(locks := Acquire(s.locks, lock, session),
           tasks := if answered then s.tasks[(core, lock) := Body(session)] else s.tasks)
    case EndBody(core, lock) => s.(tasks := s.tasks[(core, lock) := Unlocking])
    case Unlock(core, lock, session, delivered) =>
      s.(locks := if delivered then Release(s.locks, lock, session) else s.locks,
         tasks := s.tasks[(core, lock) := Idle])
  }

  predicate CanRun(s: State, steps: seq<Step>)
    decreases |steps|
  {
    steps == [] || (Enabled(s, steps[0]) && CanRun(Do(s, steps[0]), steps[1..]))
  }

  function Run(s: State, steps: seq<Step>): State
    requires CanRun(s, steps)
    decreases |steps|
  {
    if steps == [] then s else Run(Do(s, steps[0]), steps[1..])
  }

  predicate Initial(s: State) {
    s.locks == map[] && forall t <- s.tasks :: s.tasks[t].Idle?
  }

  predicate Runs(s: State, core: Core, lock: LockId) {
    (core, lock) in s.tasks && s.tasks[(core, lock)].Body?
  }

  /** A running body got its lock over this session. */
  predicate InUse(s: State, session: Session) {
    exists t <- s.tasks :: s.tasks[t] == Body(session)
  }

  predicate ClosesInUse(s: State, step: Step) {
    step.Close? && InUse(s, step.session)
  }

  /** No session was closed while a body that locked over it was running. */
  predicate Steady(s: State, steps: seq<Step>)
    requires CanRun(s, steps)
    decreases |steps|
  {
    steps == [] || (!ClosesInUse(s, steps[0]) && Steady(Do(s, steps[0]), steps[1..]))
  }

  // ---- What the steps do ---------------------------------------------------------

  /** A core enters the body iff the lock is free or held by the very session it asks over. */
  lemma {:induction false} EnterExactly(s: State, core: Core, lock: LockId, session: Session)
    requires Enabled(s, TryLock(core, lock, session, true))
    ensures Runs(Do(s, TryLock(core, lock, session, true)), core, lock) <==>
            lock !in s.locks || s.locks[lock].session == session
    ensures !Runs(Do(s, TryLock(core, lock, session, false)), core, lock)
  {
  }

  /** Unlocking undoes locking over the same session, and has no effect over another one. */
  lemma {:induction false} UnlockUndoes(locks: map<LockId, Holder>, lock: LockId, session: Session, other: Session)
    requires lock in locks ==> locks[lock].session == session && locks[lock].depth > 0
    ensures Release(Acquire(locks, lock, session), lock, session) == locks
    ensures other != session ==> Release(Acquire(locks, lock, session), lock, other) == Acquire(locks, lock, session)
  {
  }

  /** A closed session's locks are free, and no other ones. */
  lemma {:induction false} CloseFrees(s: State, session: Session, lock: LockId)
    requires Enabled(s, Close(session))
    ensures lock in Do(s, Close(session)).locks <==> lock in s.locks && s.locks[lock].session != session
    ensures lock in Do(s, Close(session)).locks ==> Do(s, Close(session)).locks[lock] == s.locks[lock]
  {
  }

  /** A task that runs and unlocks over the session it locked over leaves everything as it was. */
  lemma {:induction false} RoundLeavesNoTrace(s: State, core: Core, lock: LockId, session: Session)
    requires Enabled(s, TryLock(core, lock, session, true)) && lock !in s.locks
    ensures var s1 := Do(s, TryLock(core, lock, session, true));
            Enabled(s1, EndBody(core, lock)) &&
            var s2 := Do(s1, EndBody(core, lock));
            Enabled(s2, Unlock(core, lock, session, true)) && Do(s2, Unlock(core, lock, session, true)) == s
  {
    UnlockUndoes(s.locks, lock, session, session);
  }

  // ---- Safety ------------------------------------------------------------------

  /** The lock of a running body is held by the session it was taken over, a session of the same core. */
  predicate Covered(s: State, t: (Core, LockId)) {
    t in s.tasks && s.tasks[t].Body? ==>
      var via := s.tasks[t].via;
      via in s.pool && s.pool[via] == t.0 && t.1 in s.locks && s.locks[t.1].session == via
  }

  ghost predicate Inv(s: State) {
    forall t :: Covered(s, t)
  }

  /** One step keeps the invariant exactly when it does not close a session in use. */
  lemma {:induction false} StepKeepsExactly(s: State, step: Step)
    requires Inv(s) && Enabled(s, step)
    ensures Inv(Do(s, step)) <==> !ClosesInUse(s, step)
  {
    var s' := Do(s, step);
    if ClosesInUse(s, step) {
      var t :| t in s.tasks && s.tasks[t] == Body(step.session);
      assert !Covered(s', t);
    } else {
      forall t
        ensures Covered(s', t)
      {
        assert Covered(s, t);
        if step.TryLock? || step.EndBody? || step.Unlock? {
          assert Covered(s, (step.core, step.lock));
        }
      }
    }
  }

  lemma {:induction false} SteadyKeeps(s: State, steps: seq<Step>)
    requires Inv(s) && CanRun(s, steps) && Steady(s, steps)
    ensures Inv(Run(s, steps))
    decreases |steps|
  {
    if steps != [] {
      StepKeepsExactly(s, steps[0]);
      SteadyKeeps(Do(s, steps[0]), steps[1..]);
    }
  }

  /** In a steady run no two cores are ever in the body of the same task at once. */
  lemma {:induction false} MutualExclusion(init: State, steps: seq<Step>, c1: Core, c2: Core, lock: LockId)
    requires Initial(init) && CanRun(init, steps) && Steady(init, steps)
    requires Runs(Run(init, steps), c1, lock) && Runs(Run(init, steps), c2, lock)
    ensures c1 == c2
  {
    SteadyKeeps(init, steps);
    assert Covered(Run(init, steps), (c1, lock)) && Covered(Run(init, steps), (c2, lock));
  }

  lemma {:induction false} RunOne(s: State, step: Step)
    requires Enabled(s, step)
    ensures CanRun(s, [step]) && Run(s, [step]) == Do(s, step)
  {
    var steps, s' := [step], Do(s, step);
    assert steps[1..] == [];
    assert CanRun(s', []) && Run(s', []) == s';
    assert CanRun(s', steps[1..]) && Run(s', steps[1..]) == s';
  }

  lemma {:induction false} RunTwo(s: State, first: Step, second: Step)
    requires Enabled(s, first) && Enabled(Do(s, first), second)
    ensures CanRun(s, [first, second]) && Run(s, [first, second]) == Do(Do(s, first), second)
  {
    var steps, s' := [first, second], Do(s, first);
    RunOne(s', second);
    assert steps[1..] == [second];
    assert CanRun(s', steps[1..]) && Run(s', steps[1..]) == Do(s', second);
  }

  /**
   Steadiness is needed in every state: closing the session under a running body lets any other core
   that is idle and has a session in, and the two bodies overlap.
   */
  lemma {:induction false} ClosedSessionOverlaps(s: State, c1: Core, c2: Core, lock: LockId, session: Session)
    requires Inv(s) && Runs(s, c1, lock) && c1 != c2
    requires (c2, lock) in s.tasks && s.tasks[(c2, lock)].Idle? && session in s.pool && s.pool[session] == c2
    ensures var steps := [Close(s.tasks[(c1, lock)].via), TryLock(c2, lock, session, true)];
            && CanRun(s, steps) && !Steady(s, steps)
            && Runs(Run(s, steps), c1, lock) && Runs(Run(s, steps), c2, lock)
  {
    var via := s.tasks[(c1, lock)].via;
    assert Covered(s, (c1, lock));
    assert lock !in Do(s, Close(via)).locks;
    RunTwo(s, Close(via), TryLock(c2, lock, session, true));
    assert InUse(s, via);
  }
}
