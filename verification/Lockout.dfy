/**
 Account lockout: five wrong passwords in a row lock an account for fifteen minutes, and every
 further wrong one locks it again. The attempts on one account are taken one after the other; an
 UPDATE that fails leaves the row as it was, and the attempt goes on regardless.
 */
module Lockout {
  import opened Common

  const MAX_FAILURES := 5
  const LOCK := 15 * 60

  /** A password check that took place at `at`; its outcome reached the row at `recordedAt`, or was lost. */
  datatype Check = Check(at: int, recordedAt: int, correct: bool, stored: bool)

  datatype Outcome = Disabled | Locked | WrongPassword | LoggedIn

  // ---- Histories ---------------------------------------------------------------

  /** The wrong checks recorded since the last correct one that was. */
  function Failures(log: seq<Check>): nat {
    if log == [] then 0
    else
      var init, last := log[..|log| - 1], log[|log| - 1];
      if !last.stored then Failures(init) else if last.correct then 0 else 1 + Failures(init)
  }

  /** Those of them in the closed interval [lo, hi]. */
  function FailuresIn(log: seq<Check>, lo: int, hi: int): nat {
    if log == [] then 0
    else
      var init, last := log[..|log| - 1], log[|log| - 1];
      if !last.stored then FailuresIn(init, lo, hi)
      else if last.correct then 0
      else FailuresIn(init, lo, hi) + if lo <= last.at <= hi then 1 else 0
  }

  /** When the lock in the row ends, if there is one. */
  function LockEnd(log: seq<Check>): Option<int> {
    if log == [] then None
    else
      var init, last := log[..|log| - 1], log[|log| - 1];
      if !last.stored then LockEnd(init)
      else if Failures(log) >= MAX_FAILURES then Some(last.recordedAt + LOCK) else None
  }

  /** Checks follow one another, and none took place under a lock. */
  predicate History(log: seq<Check>, now: int) {
    log == [] ||
    (var init, last := log[..|log| - 1], log[|log| - 1];
     && History(init, last.at) && last.at <= last.recordedAt <= now
     && (LockEnd(init).Some? ==> LockEnd(init).value <= last.at))
  }

  /** The wrong checks in [lo, hi] since the last correct one. */
  function WrongIn(log: seq<Check>, lo: int, hi: int): nat {
    if log == [] || log[|log| - 1].correct then 0
    else WrongIn(log[..|log| - 1], lo, hi) + if lo <= log[|log| - 1].at <= hi then 1 else 0
  }

  /** Those of them that were lost. */
  function LostIn(log: seq<Check>, lo: int, hi: int): nat {
    if log == [] || log[|log| - 1].correct then 0
    else
      var last := log[|log| - 1];
      LostIn(log[..|log| - 1], lo, hi) + if lo <= last.at <= hi && !last.stored then 1 else 0
  }

  ghost function RecordedWrong(log: seq<Check>, k: nat, lo: int, hi: int): set<int> {
    set i | k <= i < |log| && log[i].stored && !log[i].correct && lo <= log[i].at <= hi
  }

  ghost function Wrong(log: seq<Check>, k: nat, lo: int, hi: int): set<int> {
    set i | k <= i < |log| && lo <= log[i].at <= hi
  }

  ghost function LostWrong(log: seq<Check>, k: nat, lo: int, hi: int): set<int> {
    set i | k <= i < |log| && !log[i].stored && lo <= log[i].at <= hi
  }

  /** The last correct check that was recorded is just before `k`. */
  predicate RecordedSince(log: seq<Check>, k: nat) {
    && k <= |log| && (k > 0 ==> log[k - 1].stored && log[k - 1].correct)
    && forall i :: k <= i < |log| ==> !(log[i].stored && log[i].correct)
  }

  /** The last correct check is just before `k`. */
  predicate CheckedSince(log: seq<Check>, k: nat) {
    k <= |log| && (k > 0 ==> log[k - 1].correct) && forall i :: k <= i < |log| ==> !log[i].correct
  }

  lemma {:induction false} RecordedWrongStep(log: seq<Check>, k: nat, lo: int, hi: int)
    requires k < |log|
    ensures var n := |log| - 1;
            RecordedWrong(log, k, lo, hi) == RecordedWrong(log[..n], k, lo, hi)
              + if log[n].stored && !log[n].correct && lo <= log[n].at <= hi then {n} else {}
  {
    var n := |log| - 1;
    assert forall i :: 0 <= i < n ==> log[..n][i] == log[i];
  }

  lemma {:induction false} WrongStep(log: seq<Check>, k: nat, lo: int, hi: int)
    requires k < |log|
    ensures var n := |log| - 1;
            && Wrong(log, k, lo, hi) == Wrong(log[..n], k, lo, hi) + (if lo <= log[n].at <= hi then {n} else {})
            && LostWrong(log, k, lo, hi) == LostWrong(log[..n], k, lo, hi)
                 + if !log[n].stored && lo <= log[n].at <= hi then {n} else {}
  {
    var n := |log| - 1;
    assert forall i :: 0 <= i < n ==> log[..n][i] == log[i];
  }

  /** What the counter counts: the wrong checks recorded since the last correct one that was. */
  lemma {:induction false} FailuresCount(log: seq<Check>, k: nat, lo: int, hi: int)
    requires RecordedSince(log, k)
    ensures FailuresIn(log, lo, hi) == |RecordedWrong(log, k, lo, hi)|
  {
    if k == |log| {
      assert RecordedWrong(log, k, lo, hi) == {};
    } else {
      FailuresCount(log[..|log| - 1], k, lo, hi);
      RecordedWrongStep(log, k, lo, hi);
    }
  }

  lemma {:induction false} FailuresAreAll(log: seq<Check>, lo: int, hi: int)
    requires forall c <- log :: lo <= c.at <= hi
    ensures Failures(log) == FailuresIn(log, lo, hi)
  {
    if log != [] {
      var init := log[..|log| - 1];
      assert log[|log| - 1] in log && forall c <- init :: c in log;
      FailuresAreAll(init, lo, hi);
    }
  }

  lemma {:induction false} WrongCount(log: seq<Check>, k: nat, lo: int, hi: int)
    requires CheckedSince(log, k)
    ensures WrongIn(log, lo, hi) == |Wrong(log, k, lo, hi)|
  {
    if k == |log| {
      assert Wrong(log, k, lo, hi) == {};
    } else {
      WrongCount(log[..|log| - 1], k, lo, hi);
      WrongStep(log, k, lo, hi);
    }
  }

  lemma {:induction false} LostCount(log: seq<Check>, k: nat, lo: int, hi: int)
    requires CheckedSince(log, k)
    ensures LostIn(log, lo, hi) == |LostWrong(log, k, lo, hi)|
  {
    if k == |log| {
      assert LostWrong(log, k, lo, hi) == {};
    } else {
      LostCount(log[..|log| - 1], k, lo, hi);
      WrongStep(log, k, lo, hi);
    }
  }

  /**
   When an account is locked, and for how long: iff five wrong checks were recorded since the last
   correct one that was, until fifteen minutes after the last record.
   */
  lemma {:induction false} LockMeaning(log: seq<Check>, i: nat)
    requires i < |log| && log[i].stored && forall j :: i < j < |log| ==> !log[j].stored
    ensures LockEnd(log).Some? <==> Failures(log) >= 5
    ensures LockEnd(log).Some? ==> LockEnd(log).value == log[i].recordedAt + 15 * 60
    ensures log[i].correct ==> LockEnd(log).None? && Failures(log) == 0
  {
    if i < |log| - 1 {
      LockMeaning(log[..|log| - 1], i);
    }
  }

  // ---- The account -------------------------------------------------------------

  class Account {
    const active: bool
    var failedAttempts: int
    var lockedUntil: Option<int>
    ghost var log: seq<Check>
    ghost var now: int

    /** The row says how many wrong checks were recorded since the last correct one. */
    ghost predicate Valid()
      reads this
    {
      failedAttempts == Failures(log) && lockedUntil == LockEnd(log) && History(log, now)
    }

    constructor (active: bool, ghost now: int)
      ensures Valid() && this.active == active && log == [] && this.now == now
    {
      this.active := active;
      failedAttempts, lockedUntil := 0, None;
      log, this.now := [], now;
    }

    /**
     One attempt: the lock is looked at when it arrives, at `at`; the outcome is written at
     `recordedAt`, and the attempt ends the same way if that fails.
     */
    method Login(passwordOk: bool, at: int, recordedAt: int, stored: bool) returns (outcome: Outcome)
      requires Valid() && now <= at <= recordedAt
      modifies this
      ensures Valid() && now == recordedAt
      ensures outcome == if !active then Disabled
                         else if old(LockEnd(log)).Some? && at < old(LockEnd(log)).value then Locked
                         else if passwordOk then LoggedIn else WrongPassword
      ensures log == if outcome.Disabled? || outcome.Locked? then old(log)
                     else old(log) + [Check(at, recordedAt, passwordOk, stored)]
    {
      HistoryLater(log, now, at);
      HistoryLater(log, at, recordedAt);
      now := recordedAt;
      if !active {
        return Disabled;
      }
      if lockedUntil.Some? && lockedUntil.value > at {
        return Locked;
      }
      LockedIffFive(log);
      ghost var before := log;
      log := log + [Check(at, recordedAt, passwordOk, stored)];
      assert log[..|log| - 1] == before;
      if !passwordOk {
        var newAttempts := failedAttempts + 1;
        if stored {
          if newAttempts >= MAX_FAILURES {
            failedAttempts, lockedUntil := newAttempts, Some(recordedAt + LOCK);
          } else {
            failedAttempts := newAttempts;
          }
        }
        return WrongPassword;
      }
      if (failedAttempts > 0 || lockedUntil.Some?) && stored {
        failedAttempts, lockedUntil := 0, None;
      }
      return LoggedIn;
    }
  }

  // ---- The bound ---------------------------------------------------------------

  lemma {:induction false} LockedIffFive(log: seq<Check>)
    ensures LockEnd(log).Some? <==> Failures(log) >= MAX_FAILURES
  {
    if log != [] {
      LockedIffFive(log[..|log| - 1]);
    }
  }

  lemma {:induction false} HistoryLater(log: seq<Check>, now: int, later: int)
    requires History(log, now) && now <= later
    ensures History(log, later)
  {
  }

  lemma {:induction false} FailuresInAll(log: seq<Check>, lo: int, hi: int)
    ensures FailuresIn(log, lo, hi) <= Failures(log)
    ensures lo > hi ==> FailuresIn(log, lo, hi) == 0
  {
    if log != [] {
      FailuresInAll(log[..|log| - 1], lo, hi);
    }
  }

  /** Nothing is lost by ending the interval at the present. */
  lemma {:induction false} FailuresInCut(log: seq<Check>, now: int, lo: int, hi: int)
    requires History(log, now) && now <= hi
    ensures FailuresIn(log, lo, hi) == FailuresIn(log, lo, now)
  {
    if log != [] {
      var init, last := log[..|log| - 1], log[|log| - 1];
      FailuresInCut(init, last.at, lo, hi);
      FailuresInCut(init, last.at, lo, now);
    }
  }

  /** Nor at the moment the lock was set: everything recorded was checked before. */
  lemma {:induction false} FailuresInLock(log: seq<Check>, now: int, lo: int, hi: int)
    requires History(log, now) && LockEnd(log).Some? && LockEnd(log).value - LOCK <= hi
    ensures FailuresIn(log, lo, hi) == FailuresIn(log, lo, LockEnd(log).value - LOCK)
  {
    var init, last := log[..|log| - 1], log[|log| - 1];
    if last.stored {
      FailuresInCut(init, last.at, lo, hi);
      FailuresInCut(init, last.at, lo, last.recordedAt);
    } else {
      FailuresInLock(init, last.at, lo, hi);
    }
  }

  /** In any interval of length D at most 5 + D / 15 min wrong passwords are recorded in a row. */
  lemma {:induction false} RecordedBound(log: seq<Check>, now: int, lo: int, hi: int)
    requires History(log, now) && lo <= hi
    ensures FailuresIn(log, lo, hi) <= 5 + (hi - lo) / (15 * 60)
    decreases |log|
  {
    if log != [] {
      var init, last := log[..|log| - 1], log[|log| - 1];
      RecordedBound(init, last.at, lo, hi);
      if last.stored && !last.correct && lo <= last.at <= hi {
        LockedIffFive(init);
        if Failures(init) < MAX_FAILURES {
          FailuresInAll(init, lo, hi);
        } else {
          BackByALock(init, last.at, lo, hi);
          FailuresInAll(init, lo, hi - LOCK);
          if lo <= hi - LOCK {
            RecordedBound(init, last.at, lo, hi - LOCK);
          }
        }
      }
    }
  }

  /** Once a lock has passed, everything recorded before lies at least a lock's length back. */
  lemma {:induction false} BackByALock(log: seq<Check>, now: int, lo: int, hi: int)
    requires History(log, now) && LockEnd(log).Some? && LockEnd(log).value <= hi
    ensures FailuresIn(log, lo, hi) == FailuresIn(log, lo, hi - LOCK)
  {
    FailuresInLock(log, now, lo, hi);
    FailuresInLock(log, now, lo, hi - LOCK);
  }

  lemma {:induction false} WrongSplit(log: seq<Check>, lo: int, hi: int)
    ensures WrongIn(log, lo, hi) <= FailuresIn(log, lo, hi) + LostIn(log, lo, hi)
  {
    if log != [] {
      WrongSplit(log[..|log| - 1], lo, hi);
    }
  }

  /** In any interval of length D at most 5 + D / 15 min wrong passwords are checked in a row, and the lost ones. */
  lemma {:induction false} LockoutBound(log: seq<Check>, now: int, lo: int, hi: int)
    requires History(log, now) && lo <= hi
    ensures WrongIn(log, lo, hi) <= 5 + (hi - lo) / (15 * 60) + LostIn(log, lo, hi)
  {
    RecordedBound(log, now, lo, hi);
    WrongSplit(log, lo, hi);
  }
}
