/**
 The in-memory rate limiter of the login endpoints: per address the times of its accepted
 calls, filtered in place on every call and by a periodic cleanup.
 */
module SlidingWindow {
  import opened Common
  import opened Slices

  datatype Accepted = Accepted(ip: string, at: int)

  // ---- The exact sliding window ------------------------------------------------

  /** The accepted calls of `ip` in the half-open interval (lo, hi]. */
  function Count(log: seq<Accepted>, ip: string, lo: int, hi: int): nat {
    if log == [] then 0
    else
      var last := log[|log| - 1];
      Count(log[..|log| - 1], ip, lo, hi) + if last.ip == ip && lo < last.at <= hi then 1 else 0
  }

  ghost function CallsIn(log: seq<Accepted>, ip: string, lo: int, hi: int): set<int> {
    set i | 0 <= i < |log| && log[i].ip == ip && lo < log[i].at <= hi
  }

  lemma {:induction false} CountIsNumber(log: seq<Accepted>, ip: string, lo: int, hi: int)
    ensures Count(log, ip, lo, hi) == |CallsIn(log, ip, lo, hi)|
  {
    if log == [] {
      assert CallsIn(log, ip, lo, hi) == {};
    } else {
      var n := |log| - 1;
      CountIsNumber(log[..n], ip, lo, hi);
      assert CallsIn(log, ip, lo, hi)
          == CallsIn(log[..n], ip, lo, hi) + if log[n].ip == ip && lo < log[n].at <= hi then {n} else {};
    }
  }

  /**
   A history up to `now`: times never go back, and every call was accepted because fewer than
   `limit` calls of its address preceded it in its window.
   */
  predicate History(log: seq<Accepted>, limit: int, window: int, now: int) {
    log == [] ||
    (var init, last := log[..|log| - 1], log[|log| - 1];
     && last.at <= now && History(init, limit, window, last.at)
     && Count(init, last.ip, last.at - window, last.at) < limit)
  }

  lemma {:induction false} HistoryGrows(log: seq<Accepted>, limit: int, window: int, now: int, ip: string, at: int)
    requires History(log, limit, window, now) && now <= at
    ensures History(log, limit, window, at)
    ensures Count(log, ip, at - window, at) < limit ==> History(log + [Accepted(ip, at)], limit, window, at)
  {
  }

  /** Lowering the lower end, or moving the upper end past the last call, loses no call. */
  lemma {:induction false} CountWiden(log: seq<Accepted>, limit: int, window: int, now: int,
                                      ip: string, lo: int, hi: int, lo': int, hi': int)
    requires History(log, limit, window, now) && lo' <= lo && now <= hi'
    ensures Count(log, ip, lo, hi) <= Count(log, ip, lo', hi')
  {
    if log != [] {
      CountWiden(log[..|log| - 1], limit, window, log[|log| - 1].at, ip, lo, hi, lo', hi');
    }
  }

  /** No half-open interval of length `window` holds more than `limit` accepted calls of an address. */
  lemma {:induction false} WindowBound(log: seq<Accepted>, limit: int, window: int, now: int, ip: string, t: int)
    requires History(log, limit, window, now)
    ensures Count(log, ip, t, t + window) <= Max(0, limit)
  {
    if log != [] {
      var init, last := log[..|log| - 1], log[|log| - 1];
      WindowBound(init, limit, window, last.at, ip, t);
      if last.ip == ip && t < last.at <= t + window {
        CountWiden(init, limit, window, last.at, ip, t, t + window, last.at - window, last.at);
      }
    }
  }

  // ---- What the limiter stores -------------------------------------------------

  /** The accept times of one address, in order. */
  function Times(log: seq<Accepted>, ip: string): seq<int> {
    if log == [] then []
    else
      var init := Times(log[..|log| - 1], ip);
      if log[|log| - 1].ip == ip then init + [log[|log| - 1].at] else init
  }

  function Later(cutoff: int): int -> bool {
    t => t > cutoff
  }

  /** The times that are still in the window when it starts at `cutoff`. */
  function Recent(times: seq<int>, cutoff: int): seq<int> {
    Filter(times, Later(cutoff))
  }

  predicate AllLater(times: seq<int>, cutoff: int) {
    forall t <- times :: t > cutoff
  }

  /** Outside `rest` every stored list is non-empty and within the window. */
  predicate Tidy(attempts: map<string, seq<int>>, rest: set<string>, cutoff: int) {
    forall ip <- attempts :: ip in rest || (attempts[ip] != [] && AllLater(attempts[ip], cutoff))
  }

  lemma {:induction false} RecentIsLater(times: seq<int>, cutoff: int)
    ensures AllLater(Recent(times, cutoff), cutoff)
  {
    forall t | t in Recent(times, cutoff)
      ensures t > cutoff
    {
      FilterMember(times, Later(cutoff), t);
    }
  }

  lemma {:induction false} RecentSnoc(times: seq<int>, t: int, cutoff: int)
    ensures Recent(times + [t], cutoff) == if t > cutoff then Recent(times, cutoff) + [t] else Recent(times, cutoff)
  {
    assert (times + [t])[..|times|] == times;
  }

  lemma {:induction false} RecentTwice(times: seq<int>, c1: int, c2: int)
    requires c1 <= c2
    ensures Recent(Recent(times, c1), c2) == Recent(times, c2)
  {
    if times != [] {
      var init, last := times[..|times| - 1], times[|times| - 1];
      assert times == init + [last];
      RecentTwice(init, c1, c2);
      RecentSnoc(init, last, c1);
      RecentSnoc(init, last, c2);
      RecentSnoc(Recent(init, c1), last, c2);
    }
  }

  lemma {:induction false} RecentCount(log: seq<Accepted>, limit: int, window: int, now: int,
                                       ip: string, lo: int, hi: int)
    requires History(log, limit, window, now) && now <= hi
    ensures |Recent(Times(log, ip), lo)| == Count(log, ip, lo, hi)
  {
    if log != [] {
      var init, last := log[..|log| - 1], log[|log| - 1];
      RecentCount(init, limit, window, last.at, ip, lo, hi);
      RecentSnoc(Times(init, ip), last.at, lo);
    }
  }

  function Stored(attempts: map<string, seq<int>>, ip: string): seq<int> {
    if ip in attempts then attempts[ip] else []
  }

  /** What is stored agrees with the history from `cutoff` on. */
  ghost predicate Agrees(attempts: map<string, seq<int>>, log: seq<Accepted>, cutoff: int, ip: string) {
    Recent(Stored(attempts, ip), cutoff) == Recent(Times(log, ip), cutoff)
  }

  ghost predicate AgreesAll(attempts: map<string, seq<int>>, log: seq<Accepted>, cutoff: int) {
    forall ip :: Agrees(attempts, log, cutoff, ip)
  }

  lemma {:induction false} AgreesLater(attempts: map<string, seq<int>>, log: seq<Accepted>, c1: int, c2: int)
    requires AgreesAll(attempts, log, c1) && c1 <= c2
    ensures AgreesAll(attempts, log, c2)
  {
    forall ip
      ensures Agrees(attempts, log, c2, ip)
    {
      assert Agrees(attempts, log, c1, ip);
      RecentTwice(Stored(attempts, ip), c1, c2);
      RecentTwice(Times(log, ip), c1, c2);
    }
  }

  /** Storing only what is after the cutoff, or nothing when nothing is, keeps the agreement. */
  lemma {:induction false} ExpireAgrees(was: map<string, seq<int>>, now: map<string, seq<int>>,
                                        log: seq<Accepted>, cutoff: int, ip: string)
    requires AgreesAll(was, log, cutoff)
    requires forall other :: other != ip ==> Stored(now, other) == Stored(was, other)
    requires Stored(now, ip) == Recent(Stored(was, ip), cutoff)
    ensures AgreesAll(now, log, cutoff)
  {
    forall other
      ensures Agrees(now, log, cutoff, other)
    {
      assert Agrees(was, log, cutoff, other);
      RecentTwice(Stored(was, ip), cutoff, cutoff);
    }
  }

  /** Recording an accepted call keeps it too. */
  lemma {:induction false} AcceptAgrees(was: map<string, seq<int>>, now: map<string, seq<int>>, log: seq<Accepted>,
                     cutoff: int, ip: string, at: int)
    requires AgreesAll(was, log, cutoff)
    requires forall other :: other != ip ==> Stored(now, other) == Stored(was, other)
    requires Stored(now, ip) == Stored(was, ip) + [at]
    ensures AgreesAll(now, log + [Accepted(ip, at)], cutoff)
  {
    var log' := log + [Accepted(ip, at)];
    forall other
      ensures Agrees(now, log', cutoff, other)
    {
      assert log'[..|log|] == log;
      assert Agrees(was, log, cutoff, other);
      if other == ip {
        assert Stored(now, ip)[..|Stored(was, ip)|] == Stored(was, ip);
        assert Times(log', ip)[..|Times(log, ip)|] == Times(log, ip);
      }
    }
  }

  /** The history is in order, and what is stored agrees with it as far as the window reaches. */
  ghost predicate Sound(attempts: map<string, seq<int>>, log: seq<Accepted>, limit: int, window: int, now: int) {
    History(log, limit, window, now) && AgreesAll(attempts, log, now - window)
  }

  /** What a call finds out, and what it leaves behind. */
  lemma {:induction false} CallKeeps(was: map<string, seq<int>>, log: seq<Accepted>, limit: int, window: int, now: int,
                                     ip: string, at: int)
    requires Sound(was, log, limit, window, now) && now <= at
    ensures var valid := Recent(Stored(was, ip), at - window);
            && |valid| == Count(log, ip, at - window, at)
            && if |valid| < limit then Sound(was[ip := valid + [at]], log + [Accepted(ip, at)], limit, window, at)
               else Sound(was[ip := valid], log, limit, window, at)
  {
    var cutoff := at - window;
    var valid := Recent(Stored(was, ip), cutoff);
    AgreesLater(was, log, now - window, cutoff);
    assert |valid| == Count(log, ip, cutoff, at) by {
      assert Agrees(was, log, cutoff, ip);
      RecentCount(log, limit, window, now, ip, cutoff, at);
    }
    HistoryGrows(log, limit, window, now, ip, at);
    ExpireAgrees(was, was[ip := valid], log, cutoff, ip);
    AcceptAgrees(was[ip := valid], was[ip := valid + [at]], log, cutoff, ip, at);
  }

  class RateLimiter {
    var attempts: map<string, seq<int>>
    const limit: int
    const window: int
    ghost var log: seq<Accepted>    // every accepted call
    ghost var now: int              // the latest clock reading

    ghost predicate Valid()
      reads this
    {
      Sound(attempts, log, limit, window, now)
    }

    constructor (limit: int, window: int, ghost now: int)
      ensures Valid() && this.limit == limit && this.window == window && log == [] && this.now == now
    {
      this.limit, this.window := limit, window;
      attempts := map[];
      log, this.now := [], now;
    }

    /** `valid := attempts[:0]` and the loop that appends what is after the cutoff. */
    method Expire(times: seq<int>, cutoff: int) returns (valid: seq<int>)
      ensures valid == Recent(times, cutoff)
    {
      var a := new int[|times|](i requires 0 <= i < |times| => times[i]);
      assert a[..] == times;
      var n := CompactInPlace(a, Later(cutoff));
      valid := a[..n];
    }

    /** The decision of one call and the stored times it leaves. */
    method Decide(ip: string, at: int) returns (next: map<string, seq<int>>, ok: bool)
      ensures var valid := Recent(Stored(attempts, ip), at - window);
              && ok == (|valid| < limit)
              && next == attempts[ip := if ok then valid + [at] else valid]
    {
      var stored := Stored(attempts, ip);
      var valid := Expire(stored, at - window);
      next := attempts;
      if |valid| == 0 && |stored| > 0 {
        next := next - {ip};
      }
      if |valid| >= limit {
        return next[ip := valid], false;
      }
      return next[ip := valid + [at]], true;
    }

    /** Accepts iff fewer than `limit` calls of `ip` were accepted in (at - window, at]. */
    method Allow(ip: string, at: int) returns (ok: bool)
      requires Valid() && now <= at
      modifies this
      ensures Valid() && now == at
      ensures ok <==> Count(old(log), ip, at - window, at) < limit
      ensures log == if ok then old(log) + [Accepted(ip, at)] else old(log)
    {
      CallKeeps(attempts, log, limit, window, now, ip, at);
      attempts, ok := Decide(ip, at);
      if ok {
        log := log + [Accepted(ip, at)];
      }
      now := at;
    }

    /** The pass over all addresses, in any order. */
    method Sweep(cutoff: int, ghost log: seq<Accepted>) returns (next: map<string, seq<int>>)
      requires AgreesAll(attempts, log, cutoff)
      ensures AgreesAll(next, log, cutoff) && Tidy(next, {}, cutoff)
    {
      next := attempts;
      var rest := attempts.Keys;
      while rest != {}
        invariant rest <= next.Keys
        invariant AgreesAll(next, log, cutoff) && Tidy(next, rest, cutoff)
        decreases |rest|
      {
        var ip :| ip in rest;
        var valid := Expire(next[ip], cutoff);
        RecentIsLater(next[ip], cutoff);
        rest := rest - {ip};
        ghost var was := next;
        if |valid| == 0 {
          next := next - {ip};
        } else {
          next := next[ip := valid];
        }
        ExpireAgrees(was, next, log, cutoff, ip);
      }
    }

    /** Forgets all that has left the window, and nothing that a later answer depends on. */
    method Cleanup(at: int)
      requires Valid() && now <= at
      modifies this`attempts, this`now
      ensures Valid() && now == at && log == old(log)
      ensures Tidy(attempts, {}, at - window)
    {
      AgreesLater(attempts, log, now - window, at - window);
      HistoryGrows(log, limit, window, now, "", at);
      attempts := Sweep(at - window, log);
      now := at;
    }
  }
}
