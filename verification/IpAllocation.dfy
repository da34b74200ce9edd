/**
 Address allocation for new devices: each attempt is one statement that picks a free address of
 the network from a snapshot of the devices table and inserts the row under the unique index on
 the address. Requests run concurrently; one that loses the race tries again, five times at most.
 */
module IpAllocation {
  import opened Common
  import opened Addressing

  const MAX_ATTEMPTS := 5

  // ---- The candidates of a network -----------------------------------------------

  /** A network the statement can compute with: aligned, and small enough for its 32-bit shift. */
  predicate Network(c: Cidr) {
    2 <= c.bits && c.base % BlockSize(c) == 0 && c.base + BlockSize(c) <= 0x1_0000_0000
  }

  type Net = c: Cidr | Network(c) witness NetWitness()

  function NetWitness(): (c: Cidr)
    ensures Network(c)
  {
    assert Pow2(0) == 1;
    Cidr(0, 32)
  }

  /** generate_series(2, (1 << (32 - masklen)) - 2) */
  predicate Offset(c: Net, off: int) {
    2 <= off <= BlockSize(c) - 2
  }

  /** `ip` is one of the network's candidate addresses. */
  predicate Candidate(c: Net, ip: Addr) {
    Offset(c, ip - c.base)
  }

  /** An address of the network other than its network, gateway and broadcast address. */
  predicate Usable(c: Net, ip: Addr) {
    InCidr(ip, c) && ip != c.base && ip != c.base + 1 && ip != c.base + BlockSize(c) - 1
  }

  /** The candidates are exactly the usable addresses. */
  lemma {:induction false} CandidateUsable(c: Net, ip: Addr)
    ensures Candidate(c, ip) <==> Usable(c, ip)
  {
    InCidrRange(ip, c);
  }

  /** Some free address, None when all usable ones are taken. */
  method FindFree(c: Net, taken: set<Addr>) returns (ip: Option<Addr>)
    ensures ip.Some? ==> Usable(c, ip.value) && ip.value !in taken
    ensures ip.None? ==> forall a: Addr :: Usable(c, a) ==> a in taken
  {
    var off := 2;
    while off <= BlockSize(c) - 2
      invariant 2 <= off
      invariant forall a: Addr :: Candidate(c, a) && a - c.base < off ==> a in taken
    {
      var a: Addr := c.base + off;
      if a !in taken {
        CandidateUsable(c, a);
        return Some(a);
      }
      off := off + 1;
    }
    forall a: Addr | Usable(c, a)
      ensures a in taken
    {
      CandidateUsable(c, a);
    }
    return None;
  }

  // ---- Concurrent requests -------------------------------------------------------

  type Id = nat

  datatype Phase =
    | Ready                       // about to issue the statement
    | Chosen(ip: Addr, snap: nat) // the snapshot was taken after `snap` inserts; the insert is to come
    | Done(ip: Addr)
    | NoneFree(seen: seq<Row>)    // "no available IP addresses in the network", judged by this snapshot
    | GaveUp                      // "failed to allocate IP address after retries"
    | Rejected                    // another unique index refused the row

  /** A request; it began after `since` inserts, and `retries` of its attempts lost the race. */
  datatype Request = Request(net: Net, phase: Phase, retries: nat, since: nat)

  datatype Row = Row(id: Id, ip: Addr)

  datatype State = State(
    rows: seq<Row>,                 // the devices table
    requests: map<Id, Request>,
    log: seq<Row>)                  // every insert that succeeded

  datatype Step =
    | Begin(id: Id, net: Net)
    | Snapshot(id: Id, pick: Option<Addr>)
    | Insert(id: Id, refused: bool)
    | Delete(i: nat)

  predicate Taken(rows: seq<Row>, ip: Addr) {
    exists r <- rows :: r.ip == ip
  }

  /** The network has no free address. */
  ghost predicate Full(c: Net, rows: seq<Row>) {
    forall a: Addr :: Candidate(c, a) ==> Taken(rows, a)
  }

  ghost predicate Enabled(s: State, step: Step) {
    match step
    case Begin(id, _) => id !in s.requests
    case Snapshot(id, pick) =>
      && id in s.requests && s.requests[id].phase.Ready?
      && var c := s.requests[id].net;
         if pick.Some? then Candidate(c, pick.value) && !Taken(s.rows, pick.value)
         else Full(c, s.rows)
    case Insert(id, _) => id in s.requests && s.requests[id].phase.Chosen?
    case Delete(i) => i < |s.rows|
  }

  ghost function Do(s: State, step: Step): State
    requires Enabled(s, step)
  {
    match step
    case Begin(id, net) => s.(requests := s.requests[id := Request(net, Ready, 0, |s.log|)])
    case Snapshot(id, pick) =>
      var phase := if pick.Some? then Chosen(pick.value, |s.log|) else NoneFree(s.rows);
      s.(requests := s.requests[id := s.requests[id].(phase := phase)])
    case Insert(id, refused) =>
      var q := s.requests[id];
      var row := Row(id, q.phase.ip);
      if refused then s.(requests := s.requests[id := q.(phase := Rejected)])
      else if Taken(s.rows, row.ip) then
        var phase := if q.retries + 1 < MAX_ATTEMPTS then Ready else GaveUp;
        s.(requests := s.requests[id := q.(phase := phase, retries := q.retries + 1)])
      else
        State(s.rows + [row], s.requests[id := q.(phase := Done(row.ip))], s.log + [row])
    case Delete(i) => s.(rows := s.rows[..i] + s.rows[i + 1..])
  }

  ghost predicate CanRun(s: State, steps: seq<Step>)
    decreases |steps|
  {
    steps == [] || (Enabled(s, steps[0]) && CanRun(Do(s, steps[0]), steps[1..]))
  }

  ghost function Run(s: State, steps: seq<Step>): State
    requires CanRun(s, steps)
    decreases |steps|
  {
    if steps == [] then s else Run(Do(s, steps[0]), steps[1..])
  }

  predicate DistinctAddresses(rows: seq<Row>) {
    forall i, j :: 0 <= i < j < |rows| ==> rows[i].ip != rows[j].ip
  }

  predicate Initial(s: State) {
    s.requests == map[] && s.log == [] && DistinctAddresses(s.rows)
  }

  // ---- The invariant -----------------------------------------------------------

  /** Inserts by other requests since this one began. */
  function Others(log: seq<Row>, since: nat, id: Id): nat
    decreases |log|
  {
    if |log| <= since then 0
    else Others(log[..|log| - 1], since, id) + if log[|log| - 1].id != id then 1 else 0
  }

  ghost function OtherInserts(log: seq<Row>, since: nat, id: Id): set<int> {
    set i | since <= i < |log| && log[i].id != id
  }

  lemma {:induction false} OthersCounts(log: seq<Row>, since: nat, id: Id)
    ensures Others(log, since, id) == |OtherInserts(log, since, id)|
    decreases |log|
  {
    if |log| <= since {
      assert OtherInserts(log, since, id) == {};
    } else {
      var n := |log| - 1;
      OthersCounts(log[..n], since, id);
      assert OtherInserts(log, since, id)
          == OtherInserts(log[..n], since, id) + if log[n].id != id then {n} else {};
    }
  }

  /** The address was inserted after the snapshot. */
  predicate InsertedSince(log: seq<Row>, snap: nat, ip: Addr) {
    exists k :: snap <= k < |log| && log[k].ip == ip
  }

  ghost predicate RequestOk(s: State, id: Id, q: Request) {
    && q.since <= |s.log| && q.retries <= MAX_ATTEMPTS && q.retries <= Others(s.log, q.since, id)
    && (q.phase.GaveUp? <==> q.retries == MAX_ATTEMPTS)
    && match q.phase
       case Chosen(ip, snap) =>
         && q.since <= snap <= |s.log| && Candidate(q.net, ip)
         && q.retries <= Others(s.log[..snap], q.since, id)
         && (Taken(s.rows, ip) ==> InsertedSince(s.log, snap, ip))
       case Done(ip) => Candidate(q.net, ip) && Row(id, ip) in s.log
       case NoneFree(seen) => Full(q.net, seen)
       case _ => true
  }

  /** A request that has not finished has inserted nothing. */
  predicate NotInserted(s: State, id: Id, q: Request) {
    !q.phase.Done? ==> forall r <- s.log :: r.id != id
  }

  ghost predicate Inv(s: State) {
    && DistinctAddresses(s.rows)
    && (forall id <- s.requests :: RequestOk(s, id, s.requests[id]) && NotInserted(s, id, s.requests[id]))
    && (forall r <- s.log :: r.id in s.requests && s.requests[r.id].phase == Done(r.ip))
  }

  lemma {:induction false} OthersMonotone(log: seq<Row>, since: nat, id: Id, n: nat)
    requires n <= |log|
    ensures Others(log[..n], since, id) <= Others(log, since, id)
    decreases |log|
  {
    if n < |log| {
      OthersMonotone(log[..|log| - 1], since, id, n);
      assert log[..|log| - 1][..n] == log[..n];
    } else {
      assert log[..n] == log;
    }
  }

  /** An insert of another request after the snapshot makes room for one more retry. */
  lemma {:induction false} OthersGain(log: seq<Row>, since: nat, id: Id, snap: nat, k: nat)
    requires since <= snap <= k < |log| && log[k].id != id
    ensures Others(log[..snap], since, id) + 1 <= Others(log, since, id)
  {
    assert log[..k + 1][..k] == log[..k];
    assert log[..k][..snap] == log[..snap];
    OthersMonotone(log[..k], since, id, snap);
    OthersMonotone(log, since, id, k + 1);
  }

  lemma {:induction false} OthersAppend(log: seq<Row>, row: Row, since: nat, id: Id)
    ensures Others(log, since, id) <= Others(log + [row], since, id)
  {
  }

  /** Losing the race costs one insert of somebody else. */
  lemma {:induction false} CollisionCharged(s: State, id: Id)
    requires Inv(s) && id in s.requests && s.requests[id].phase.Chosen? && Taken(s.rows, s.requests[id].phase.ip)
    ensures s.requests[id].retries + 1 <= Others(s.log, s.requests[id].since, id)
  {
    var q := s.requests[id];
    assert RequestOk(s, id, q) && NotInserted(s, id, q);
    var k :| q.phase.snap <= k < |s.log| && s.log[k].ip == q.phase.ip;
    assert s.log[k] in s.log;
    OthersGain(s.log, q.since, id, q.phase.snap, k);
  }

  lemma {:induction false} OtherRequestKept(s: State, row: Row, id: Id)
    requires id in s.requests && RequestOk(s, id, s.requests[id])
    ensures RequestOk(State(s.rows + [row], s.requests, s.log + [row]), id, s.requests[id])
  {
    var q := s.requests[id];
    var log := s.log + [row];
    OthersAppend(s.log, row, q.since, id);
    if q.phase.Chosen? {
      var snap, ip := q.phase.snap, q.phase.ip;
      assert log[..snap] == s.log[..snap];
      if Taken(s.rows + [row], ip) {
        if row.ip == ip {
          assert log[|s.log|].ip == ip;
        } else {
          var r :| r in s.rows + [row] && r.ip == ip;
          assert r in s.rows;
          var k :| snap <= k < |s.log| && s.log[k].ip == ip;
          assert log[k].ip == ip;
        }
      }
    }
  }

  lemma {:induction false} SameRequest(s: State, s': State, id: Id)
    requires id in s.requests && RequestOk(s, id, s.requests[id]) && s'.rows == s.rows && s'.log == s.log
    ensures RequestOk(s', id, s.requests[id])
  {
  }

  /** The table and the other requests after a successful insert. */
  lemma {:induction false} InsertSucceeds(s: State, id: Id)
    requires Inv(s) && Enabled(s, Insert(id, false)) && !Taken(s.rows, s.requests[id].phase.ip)
    ensures Inv(Do(s, Insert(id, false)))
  {
    var q := s.requests[id];
    var row := Row(id, q.phase.ip);
    var s' := Do(s, Insert(id, false));
    assert RequestOk(s, id, q) && NotInserted(s, id, q);
    OthersAppend(s.log, row, q.since, id);
    forall other | other in s'.requests
      ensures RequestOk(s', other, s'.requests[other]) && NotInserted(s', other, s'.requests[other])
    {
      if other != id {
        assert RequestOk(s, other, s.requests[other]) && NotInserted(s, other, s.requests[other]);
        OtherRequestKept(s, row, other);
        SameRequest(State(s.rows + [row], s.requests, s.log + [row]), s', other);
      }
    }
    DistinctAppend(s.rows, row);
    forall r | r in s'.log
      ensures r.id in s'.requests && s'.requests[r.id].phase == Done(r.ip)
    {
      assert r in s.log || r == row;
    }
  }

  lemma {:induction false} DistinctAppend(rows: seq<Row>, row: Row)
    requires DistinctAddresses(rows) && !Taken(rows, row.ip)
    ensures DistinctAddresses(rows + [row])
  {
    forall i | 0 <= i < |rows|
      ensures rows[i].ip != row.ip
    {
      assert rows[i] in rows;
    }
  }

  lemma {:induction false} InsertFails(s: State, id: Id, refused: bool)
    requires Inv(s) && Enabled(s, Insert(id, refused)) && (refused || Taken(s.rows, s.requests[id].phase.ip))
    ensures Inv(Do(s, Insert(id, refused)))
  {
    assert RequestOk(s, id, s.requests[id]) && NotInserted(s, id, s.requests[id]);
    if !refused {
      CollisionCharged(s, id);
    }
    RequestChanged(s, id, Do(s, Insert(id, refused)).requests[id]);
  }

  /** A step that only changes one request's own record. */
  lemma {:induction false} RequestChanged(s: State, id: Id, q: Request)
    requires Inv(s) && RequestOk(s, id, q) && NotInserted(s, id, q)
    requires id in s.requests ==> !s.requests[id].phase.Done?
    ensures Inv(s.(requests := s.requests[id := q]))
  {
  }

  lemma {:induction false} DeleteKeeps(s: State, i: nat)
    requires Inv(s) && i < |s.rows|
    ensures Inv(Do(s, Delete(i)))
  {
  }

  lemma {:induction false} StepKeeps(s: State, step: Step)
    requires Inv(s) && Enabled(s, step)
    ensures Inv(Do(s, step))
  {
    match step
    case Begin(id, net) =>
      RequestChanged(s, id, Request(net, Ready, 0, |s.log|));
    case Snapshot(id, pick) =>
      assert RequestOk(s, id, s.requests[id]) && NotInserted(s, id, s.requests[id]);
      assert s.log[..|s.log|] == s.log;
      RequestChanged(s, id, Do(s, step).requests[id]);
    case Insert(id, refused) =>
      if refused || Taken(s.rows, s.requests[id].phase.ip) {
        InsertFails(s, id, refused);
      } else {
        InsertSucceeds(s, id);
      }
    case Delete(i) => DeleteKeeps(s, i);
  }

  lemma {:induction false} RunKeeps(s: State, steps: seq<Step>)
    requires Inv(s) && CanRun(s, steps)
    ensures Inv(Run(s, steps))
    decreases |steps|
  {
    if steps != [] {
      StepKeeps(s, steps[0]);
      RunKeeps(Do(s, steps[0]), steps[1..]);
    }
  }

  /**
   Whatever the interleaving: no two devices share an address; an assigned address lies in its
   network and is not the network, gateway or broadcast address; a request, however it ends, has
   lost only as many races as other requests inserted while it ran, and gives up iff these were
   five; and one that found no address looked at a table in which the whole network was taken.
   */
  lemma {:induction false} AllocationSafe(init: State, steps: seq<Step>, id: Id)
    requires Initial(init) && CanRun(init, steps) && id in Run(init, steps).requests
    ensures DistinctAddresses(Run(init, steps).rows)
    ensures var q := Run(init, steps).requests[id];
            && (q.phase.Done? ==> Usable(q.net, q.phase.ip) && Row(id, q.phase.ip) in Run(init, steps).log)
            && q.retries <= Others(Run(init, steps).log, q.since, id)
            && (q.phase.GaveUp? <==> q.retries == 5)
            && (q.phase.NoneFree? ==> forall a: Addr :: Usable(q.net, a) ==> Taken(q.phase.seen, a))
  {
    RunKeeps(init, steps);
    var s := Run(init, steps);
    var q := s.requests[id];
    assert RequestOk(s, id, q);
    forall a: Addr
      ensures Candidate(q.net, a) <==> Usable(q.net, a)
    {
      CandidateUsable(q.net, a);
    }
  }

  /** The rows that a run deleted. */
  ghost function Deleted(s: State, steps: seq<Step>): seq<Row>
    requires CanRun(s, steps)
    decreases |steps|
  {
    if steps == [] then []
    else
      (if steps[0].Delete? then [s.rows[steps[0].i]] else []) + Deleted(Do(s, steps[0]), steps[1..])
  }

  /** How often a row occurs. */
  ghost function Times(rows: seq<Row>, r: Row): nat {
    multiset(rows)[r]
  }

  lemma {:induction false} StepConserves(s: State, step: Step, r: Row)
    requires Enabled(s, step)
    ensures Times(Do(s, step).rows, r) + (if step.Delete? && s.rows[step.i] == r then 1 else 0) + Times(s.log, r)
            == Times(s.rows, r) + Times(Do(s, step).log, r)
  {
    match step
    case Begin(_, _) =>
    case Snapshot(_, _) =>
    case Insert(id, refused) =>
    case Delete(i) =>
      assert s.rows == s.rows[..i] + [s.rows[i]] + s.rows[i + 1..];
  }

  /** Conservation: every insert put its row into the table, where it stays until it is deleted. */
  lemma {:induction false} RowsConserved(s: State, steps: seq<Step>, r: Row)
    requires CanRun(s, steps)
    ensures Times(Run(s, steps).rows, r) + Times(Deleted(s, steps), r) + Times(s.log, r)
            == Times(s.rows, r) + Times(Run(s, steps).log, r)
    decreases |steps|
  {
    if steps != [] {
      StepConserves(s, steps[0], r);
      RowsConserved(Do(s, steps[0]), steps[1..], r);
    }
  }

  lemma {:induction false} NoneFreeStays(s: State, steps: seq<Step>, id: Id)
    requires CanRun(s, steps) && id in s.requests && s.requests[id].phase.NoneFree?
    ensures id in Run(s, steps).requests && Run(s, steps).requests[id] == s.requests[id]
    decreases |steps|
  {
    if steps != [] {
      NoneFreeStays(Do(s, steps[0]), steps[1..], id);
    }
  }

  /** The table that a request judged by was the devices table at some moment of the run. */
  lemma {:induction false} SeenWasTable(s: State, steps: seq<Step>, id: Id) returns (n: nat)
    requires CanRun(s, steps) && id in Run(s, steps).requests && Run(s, steps).requests[id].phase.NoneFree?
    requires id in s.requests ==> !s.requests[id].phase.NoneFree?
    ensures n <= |steps| && CanRun(s, steps[..n])
    ensures Run(s, steps[..n]).rows == Run(s, steps).requests[id].phase.seen
    decreases |steps|
  {
    var s' := Do(s, steps[0]);
    if id in s'.requests && s'.requests[id].phase.NoneFree? {
      n := 0;
      NoneFreeStays(s', steps[1..], id);
    } else {
      var m := SeenWasTable(s', steps[1..], id);
      n := m + 1;
      assert steps[..n][1..] == steps[1..][..m];
    }
  }
}
