/**
 The Redis form of the rate limiter: INCR on a key per address, and EXPIRE by the caller that
 created the key. The two are separate commands, so the calls of several cores interleave. Keys
 of different addresses are independent; this is the run of one of them.
 */
module RedisLimiter {
  import opened Common

  /** An accepted call: when, and in which lifetime of the key. */
  datatype Accepted = Accepted(at: int, life: nat)

  /** The stored key; `expires` is None until EXPIRE has run. */
  datatype Key = Absent | Present(count: nat, expires: Option<int>)

  datatype State = State(
    now: int,
    key: Key,
    pending: nat,           // callers that have created the key and not yet run EXPIRE
    births: seq<int>,       // when each lifetime of the key began
    log: seq<Accepted>)     // the calls answered with true

  datatype Step = Tick(to: int) | Incr | Expire

  /** A key whose time has come is gone. */
  function Live(k: Key, now: int): Key {
    if k.Present? && k.expires.Some? && k.expires.value <= now then Absent else k
  }

  predicate Enabled(s: State, step: Step) {
    match step
    case Tick(to) => s.now <= to
    case Incr => true
    case Expire => s.pending > 0
  }

  /** INCR on a missing key starts from zero. */
  function Created(s: State): State {
    if Live(s.key, s.now).Absent? then s.(key := Present(0, None), births := s.births + [s.now]) else s
  }

  /** The increment and the answer; a caller that reads 1 goes on to EXPIRE. */
  function Bump(s: State, limit: int): State {
    if s.key.Absent? || s.births == [] then s
    else
      var count := s.key.count + 1;
      s.(key := s.key.(count := count),
         pending := if count == 1 then s.pending + 1 else s.pending,
         log := if count <= limit then s.log + [Accepted(s.now, |s.births| - 1)] else s.log)
  }

  function Do(s: State, step: Step, limit: int, window: int): State
    requires Enabled(s, step)
  {
    match step
    case Tick(to) => s.(now := to)
    case Incr => Bump(Created(s), limit)
    case Expire =>
      var k := Live(s.key, s.now);
      s.(pending := s.pending - 1, key := if k.Absent? then Absent else k.(expires := Some(s.now + window)))
  }

  predicate CanRun(s: State, steps: seq<Step>, limit: int, window: int)
    decreases |steps|
  {
    steps == [] || (Enabled(s, steps[0]) && CanRun(Do(s, steps[0], limit, window), steps[1..], limit, window))
  }

  function Run(s: State, steps: seq<Step>, limit: int, window: int): State
    requires CanRun(s, steps, limit, window)
    decreases |steps|
  {
    if steps == [] then s else Run(Do(s, steps[0], limit, window), steps[1..], limit, window)
  }

  predicate Initial(s: State) {
    s.key.Absent? && s.pending == 0 && s.births == [] && s.log == []
  }

  /** The calls accepted in one lifetime. */
  function InLife(log: seq<Accepted>, life: nat): nat {
    if log == [] then 0
    else InLife(log[..|log| - 1], life) + if log[|log| - 1].life == life then 1 else 0
  }

  /** The calls accepted in the half-open interval (lo, hi]. */
  function InInterval(log: seq<Accepted>, lo: int, hi: int): nat {
    if log == [] then 0
    else InInterval(log[..|log| - 1], lo, hi) + if lo < log[|log| - 1].at <= hi then 1 else 0
  }

  ghost function LifeCalls(log: seq<Accepted>, life: nat): set<int> {
    set i | 0 <= i < |log| && log[i].life == life
  }

  ghost function IntervalCalls(log: seq<Accepted>, lo: int, hi: int): set<int> {
    set i | 0 <= i < |log| && lo < log[i].at <= hi
  }

  lemma {:induction false} InLifeIsNumber(log: seq<Accepted>, life: nat)
    ensures InLife(log, life) == |LifeCalls(log, life)|
  {
    if log == [] {
      assert LifeCalls(log, life) == {};
    } else {
      var n := |log| - 1;
      InLifeIsNumber(log[..n], life);
      assert LifeCalls(log, life) == LifeCalls(log[..n], life) + if log[n].life == life then {n} else {};
    }
  }

  lemma {:induction false} InIntervalIsNumber(log: seq<Accepted>, lo: int, hi: int)
    ensures InInterval(log, lo, hi) == |IntervalCalls(log, lo, hi)|
  {
    if log == [] {
      assert IntervalCalls(log, lo, hi) == {};
    } else {
      var n := |log| - 1;
      InIntervalIsNumber(log[..n], lo, hi);
      assert IntervalCalls(log, lo, hi) == IntervalCalls(log[..n], lo, hi) + if lo < log[n].at <= hi then {n} else {};
    }
  }

  function InWindow(log: seq<Accepted>, t: int, window: int): nat {
    InInterval(log, t, t + window)
  }

  // ---- The invariant -----------------------------------------------------------

  /** Lifetimes begin at least a window apart, the last one not after `now`. */
  predicate Spaced(births: seq<int>, window: int, now: int) {
    births == [] ||
    (var init, last := births[..|births| - 1], births[|births| - 1];
     last <= now && Spaced(init, window, last - window))
  }

  /** The call lies in its lifetime. */
  predicate InItsLife(a: Accepted, births: seq<int>, now: int) {
    && a.life < |births| && births[a.life] <= a.at <= now
    && (a.life + 1 < |births| ==> a.at <= births[a.life + 1])
  }

  predicate LifeOrdered(log: seq<Accepted>) {
    forall i, j :: 0 <= i < j < |log| ==> log[i].life <= log[j].life
  }

  /** Each accepted call lies in its lifetime, and calls are logged in order of lifetimes. */
  predicate Placed(log: seq<Accepted>, births: seq<int>, now: int) {
    LifeOrdered(log) && forall a <- log :: InItsLife(a, births, now)
  }

  /** Every call was accepted because fewer than `limit` were accepted before it in its lifetime. */
  predicate LivesBounded(log: seq<Accepted>, limit: int) {
    log == [] ||
    (var init, last := log[..|log| - 1], log[|log| - 1];
     LivesBounded(init, limit) && InLife(init, last.life) < limit)
  }

  lemma {:induction false} LifeBound(log: seq<Accepted>, limit: int, life: nat)
    requires LivesBounded(log, limit)
    ensures InLife(log, life) <= Max(0, limit)
  {
    if log != [] {
      LifeBound(log[..|log| - 1], limit, life);
    }
  }

  /** Of `count` calls the first `limit` are accepted. */
  function Granted(count: nat, limit: int): int {
    if count <= limit then count else Max(0, limit)
  }

  /** The history, and its link to the stored key: `count` calls have come in the current lifetime. */
  ghost predicate Tracked(s: State, limit: int, window: int) {
    && Spaced(s.births, window, s.now)
    && Placed(s.log, s.births, s.now)
    && LivesBounded(s.log, limit)
    && (s.key.Absent? ==> s.births == [])
    && (s.key.Present? ==>
          && s.births != []
          && InLife(s.log, |s.births| - 1) == Granted(s.key.count, limit)
          && (s.key.expires.Some? ==> s.births[|s.births| - 1] + window <= s.key.expires.value))
  }

  /** Exactly the keys without an expiry have a caller on its way to EXPIRE. */
  ghost predicate Inv(s: State, limit: int, window: int) {
    && Tracked(s, limit, window)
    && (s.key.Present? ==> s.key.count > 0)
    && (s.key.Present? && s.key.expires.Some? ==> s.key.expires.value <= s.now + window)
    && (s.pending == if s.key.Present? && s.key.expires.None? then 1 else 0)
  }

  lemma {:induction false} SpacedPair(births: seq<int>, window: int, now: int, i: nat, j: nat)
    requires Spaced(births, window, now) && window > 0 && i < j < |births|
    ensures births[i] + window <= births[j] <= now
  {
    var init, last := births[..|births| - 1], births[|births| - 1];
    if j < |init| {
      SpacedPair(init, window, last - window, i, j);
    } else {
      SpacedLast(init, window, last - window, i);
    }
  }

  lemma {:induction false} SpacedLast(births: seq<int>, window: int, now: int, i: nat)
    requires Spaced(births, window, now) && window > 0 && i < |births|
    ensures births[i] <= now
  {
    if i < |births| - 1 {
      SpacedLast(births[..|births| - 1], window, births[|births| - 1] - window, i);
    }
  }

  lemma {:induction false} NoneYet(log: seq<Accepted>, life: nat)
    requires forall a <- log :: a.life < life
    ensures InLife(log, life) == 0
  {
    if log != [] {
      assert log[|log| - 1] in log;
      NoneYet(log[..|log| - 1], life);
    }
  }

  lemma {:induction false} InLifeAppend(log: seq<Accepted>, a: Accepted, l: nat)
    ensures InLife(log + [a], l) == InLife(log, l) + if a.life == l then 1 else 0
  {
  }

  lemma {:induction false} AcceptBounded(log: seq<Accepted>, a: Accepted, limit: int)
    requires LivesBounded(log, limit) && InLife(log, a.life) < limit
    ensures LivesBounded(log + [a], limit)
  {
  }

  lemma {:induction false} AcceptPlaced(log: seq<Accepted>, births: seq<int>, now: int)
    requires Placed(log, births, now) && births != [] && births[|births| - 1] <= now
    ensures Placed(log + [Accepted(now, |births| - 1)], births, now)
  {
    forall i | 0 <= i < |log|
      ensures log[i].life <= |births| - 1
    {
      assert InItsLife(log[i], births, now);
    }
  }

  /** A new lifetime begins a window after the last one: the key got its expiry after its creation. */
  lemma {:induction false} CreateKeeps(s: State, limit: int, window: int)
    requires window > 0 && Inv(s, limit, window)
    ensures Tracked(Created(s), limit, window)
  {
    if Live(s.key, s.now).Absent? {
      var births := s.births + [s.now];
      assert births[..|s.births|] == s.births;
      forall a | a in s.log
        ensures InItsLife(a, births, s.now) && a.life < |s.births|
      {
        assert InItsLife(a, s.births, s.now);
      }
      NoneYet(s.log, |s.births|);
    }
  }

  /** An accepted call is placed in the current lifetime, whose count it raises by one. */
  lemma {:induction false} AcceptKeeps(log: seq<Accepted>, births: seq<int>, now: int, limit: int)
    requires Placed(log, births, now) && births != [] && births[|births| - 1] <= now
    requires LivesBounded(log, limit) && InLife(log, |births| - 1) < limit
    ensures var log' := log + [Accepted(now, |births| - 1)];
            && Placed(log', births, now) && LivesBounded(log', limit)
            && InLife(log', |births| - 1) == InLife(log, |births| - 1) + 1
  {
    var a := Accepted(now, |births| - 1);
    AcceptPlaced(log, births, now);
    AcceptBounded(log, a, limit);
    InLifeAppend(log, a, a.life);
  }

  lemma {:induction false} BumpKeeps(s: State, limit: int, window: int)
    requires Tracked(s, limit, window) && s.key.Present? && Live(s.key, s.now).Present?
    ensures Tracked(Bump(s, limit), limit, window)
  {
    var s', log := Bump(s, limit), s.log + [Accepted(s.now, |s.births| - 1)];
    assert s'.births == s.births && s'.now == s.now && s'.key == s.key.(count := s.key.count + 1);
    if s.key.count < limit {
      AcceptKeeps(s.log, s.births, s.now, limit);
      assert s'.log == log;
    } else {
      assert s'.log == s.log;
    }
  }

  lemma {:induction false} IncrKeeps(s: State, limit: int, window: int)
    requires window > 0 && Inv(s, limit, window)
    ensures Inv(Do(s, Incr, limit, window), limit, window)
  {
    CreateKeeps(s, limit, window);
    BumpKeeps(Created(s), limit, window);
  }

  lemma {:induction false} StepKeeps(s: State, step: Step, limit: int, window: int)
    requires window > 0 && Inv(s, limit, window) && Enabled(s, step)
    ensures Inv(Do(s, step, limit, window), limit, window)
  {
    match step
    case Tick(_) =>
    case Incr => IncrKeeps(s, limit, window);
    case Expire =>
  }

  lemma {:induction false} RunKeeps(s: State, steps: seq<Step>, limit: int, window: int)
    requires window > 0 && Inv(s, limit, window) && CanRun(s, steps, limit, window)
    ensures Inv(Run(s, steps, limit, window), limit, window)
    decreases |steps|
  {
    if steps != [] {
      StepKeeps(s, steps[0], limit, window);
      RunKeeps(Do(s, steps[0], limit, window), steps[1..], limit, window);
    }
  }

  // ---- The bounds --------------------------------------------------------------

  /** The first logged call in the interval, if there is one. */
  lemma {:induction false} FirstIn(log: seq<Accepted>, lo: int, hi: int) returns (i: nat)
    requires InInterval(log, lo, hi) > 0
    ensures i < |log| && lo < log[i].at <= hi
    ensures forall j :: 0 <= j < i ==> !(lo < log[j].at <= hi)
  {
    var init := log[..|log| - 1];
    if InInterval(init, lo, hi) > 0 {
      i := FirstIn(init, lo, hi);
    } else {
      i := |log| - 1;
      NoneIn(init, lo, hi);
    }
  }

  lemma {:induction false} NoneIn(log: seq<Accepted>, lo: int, hi: int)
    requires InInterval(log, lo, hi) == 0
    ensures forall j :: 0 <= j < |log| ==> !(lo < log[j].at <= hi)
  {
    if log != [] {
      NoneIn(log[..|log| - 1], lo, hi);
    }
  }

  lemma {:induction false} TwoLives(log: seq<Accepted>, lo: int, hi: int, l: nat)
    requires forall a <- log :: lo < a.at <= hi ==> a.life == l || a.life == l + 1
    ensures InInterval(log, lo, hi) <= InLife(log, l) + InLife(log, l + 1)
  {
    if log != [] {
      assert log[|log| - 1] in log;
      TwoLives(log[..|log| - 1], lo, hi, l);
    }
  }

  /** A window-long interval meets at most two lifetimes: a third one would begin too late. */
  lemma {:induction false} AtMostTwoLives(s: State, limit: int, window: int, t: int)
    requires window > 0 && Inv(s, limit, window)
    ensures InWindow(s.log, t, window) <= 2 * Max(0, limit)
  {
    if InInterval(s.log, t, t + window) > 0 {
      var i := FirstIn(s.log, t, t + window);
      var l := s.log[i].life;
      forall a | a in s.log && t < a.at <= t + window
        ensures a.life == l || a.life == l + 1
      {
        var j :| 0 <= j < |s.log| && s.log[j] == a;
        assert InItsLife(a, s.births, s.now) && InItsLife(s.log[i], s.births, s.now);
        if a.life > l + 1 {
          SpacedPair(s.births, window, s.now, l + 1, a.life);
        }
      }
      TwoLives(s.log, t, t + window, l);
      LifeBound(s.log, limit, l);
      LifeBound(s.log, limit, l + 1);
    }
  }

  /**
   At most `limit` calls per lifetime of the key, and at most twice that in any window; of the calls
   in the lifetime that goes on, the first `limit` were accepted; and a key with an expiry is gone
   after a window at most.
   */
  lemma {:induction false} RedisBound(init: State, steps: seq<Step>, limit: int, window: int, life: nat, t: int)
    requires window > 0 && Initial(init) && CanRun(init, steps, limit, window)
    ensures InLife(Run(init, steps, limit, window).log, life) <= Max(0, limit)
    ensures InWindow(Run(init, steps, limit, window).log, t, window) <= 2 * Max(0, limit)
    ensures var s := Run(init, steps, limit, window);
            s.key.Present? ==> s.births != [] && InLife(s.log, |s.births| - 1) == Granted(s.key.count, limit)
    ensures var s := Run(init, steps, limit, window);
            s.key.Present? && s.key.expires.Some? ==> Live(s.key, s.now + window).Absent?
  {
    RunKeeps(init, steps, limit, window);
    LifeBound(Run(init, steps, limit, window).log, limit, life);
    AtMostTwoLives(Run(init, steps, limit, window), limit, window, t);
  }

  /** EXPIRE lets the key live for exactly a window from now on. */
  lemma {:induction false} ExpireExactly(s: State, limit: int, window: int, t: int)
    requires Enabled(s, Expire) && Live(s.key, s.now).Present?
    ensures Live(Do(s, Expire, limit, window).key, t).Present? <==> t < s.now + window
  {
  }

  /** The answer of a call: true iff fewer than `limit` calls were accepted in the key's lifetime so far. */
  lemma {:induction false} AnswerExactly(s: State, limit: int, window: int)
    requires window > 0 && Inv(s, limit, window)
    ensures var accepted := if Live(s.key, s.now).Present? then InLife(s.log, |s.births| - 1) else 0;
            var after := Do(s, Incr, limit, window);
            if accepted < limit then |after.log| == |s.log| + 1 && after.log[|s.log|].at == s.now
            else after.log == s.log
  {
  }

  /** After every run: once EXPIRE has gone through, an address quiet for a window is accepted again. */
  lemma {:induction false} QuietIsAccepted(init: State, steps: seq<Step>, limit: int, window: int, to: int)
    requires window > 0 && limit > 0 && Initial(init) && CanRun(init, steps, limit, window)
    requires var s := Run(init, steps, limit, window); s.pending == 0 && s.now + window <= to
    ensures var s := Run(init, steps, limit, window).(now := to);
            var after := Do(s, Incr, limit, window);
            |after.log| == |s.log| + 1 && after.log[|s.log|].at == to
  {
    var s := Run(init, steps, limit, window);
    RunKeeps(init, steps, limit, window);
    assert Live(s.key, to).Absent?;
    StepKeeps(s, Tick(to), limit, window);
    AnswerExactly(s.(now := to), limit, window);
  }
}
