/**
 Export of the audit log to SIEM targets: every tick reads up to 500 rows above a cursor, sends
 them in order to the configured targets, stops at the first failure and saves the cursor. Sends,
 saves and scans may fail, and the process may restart from the saved cursor.
 */
module SiemExport {
  import opened Common

  const BATCH := 500

  /** What happens to one row of a batch: its scan fails, or the targets answer. */
  datatype RowOutcome = ScanFails | Scanned(webhookOk: bool, syslogOk: bool)

  predicate Ascending(ids: seq<int>) {
    forall i, j :: 0 <= i < j < |ids| ==> ids[i] < ids[j]
  }

  /** The rows a query above `cursor` yields, in order. */
  function RowsAbove(ids: seq<int>, cursor: int): seq<int> {
    if ids == [] then [] else if ids[0] > cursor then ids else RowsAbove(ids[1..], cursor)
  }

  /** The result set of one tick. */
  function Batch(ids: seq<int>, cursor: int): seq<int> {
    var above := RowsAbove(ids, cursor);
    if |above| < BATCH then above else above[..BATCH]
  }

  lemma {:induction false} RowsAboveFrom(ids: seq<int>, cursor: int, k: nat)
    requires k <= |ids| && (forall i :: 0 <= i < k ==> ids[i] <= cursor) && (k < |ids| ==> cursor < ids[k])
    ensures RowsAbove(ids, cursor) == ids[k..]
  {
    if k > 0 {
      RowsAboveFrom(ids[1..], cursor, k - 1);
    }
  }

  /** A batch is the first 500 rows above the cursor, or all of them; it is empty only if there is none. */
  lemma {:induction false} BatchExactly(ids: seq<int>, cursor: int, k: nat)
    requires k <= |ids| && (forall i :: 0 <= i < k ==> ids[i] <= cursor) && (k < |ids| ==> cursor < ids[k])
    ensures Batch(ids, cursor) == ids[k..if |ids| - k < 500 then |ids| else k + 500]
    ensures k < |ids| ==> Batch(ids, cursor) != [] && Batch(ids, cursor)[0] == ids[k]
  {
    RowsAboveFrom(ids, cursor, k);
  }

  /** The position of the first row above `cursor`. */
  method FirstAbove(ids: seq<int>, cursor: int) returns (k: nat)
    requires Ascending(ids)
    ensures k <= |ids|
    ensures forall i :: 0 <= i < k ==> ids[i] <= cursor
    ensures forall i :: k <= i < |ids| ==> cursor < ids[i]
  {
    k := 0;
    while k < |ids| && ids[k] <= cursor
      invariant 0 <= k <= |ids|
      invariant forall i :: 0 <= i < k ==> ids[i] <= cursor
    {
      k := k + 1;
    }
  }

  lemma {:induction false} InsertAscending(ids: seq<int>, id: int, k: nat)
    requires Ascending(ids) && k <= |ids| && id !in ids
    requires (forall i :: 0 <= i < k ==> ids[i] <= id) && (forall i :: k <= i < |ids| ==> id < ids[i])
    ensures Ascending(ids[..k] + [id] + ids[k..])
    ensures forall x :: x in ids[..k] + [id] + ids[k..] <==> x in ids || x == id
  {
  }

  /** The configured targets. */
  datatype Targets = Targets(webhook: bool, syslog: bool)

  /** The rows each target has received. */
  datatype Received = Received(webhook: set<int>, syslog: set<int>)

  predicate Delivered(t: Targets, r: Received, id: int) {
    (t.webhook ==> id in r.webhook) && (t.syslog ==> id in r.syslog)
  }

  predicate Grows(r: Received, r': Received) {
    r.webhook <= r'.webhook && r.syslog <= r'.syslog
  }

  predicate Succeeds(t: Targets, o: RowOutcome) {
    o.Scanned? && (t.webhook ==> o.webhookOk) && (t.syslog ==> o.syslogOk)
  }

  /** The row was sent, and some target refused it. */
  predicate Refused(t: Targets, o: RowOutcome) {
    o.Scanned? && !Succeeds(t, o)
  }

  /** Every row of the batch arrives and reaches a target. */
  predicate Smooth(t: Targets, rows: seq<int>, outcomes: seq<RowOutcome>) {
    (t.webhook || t.syslog) && |rows| <= |outcomes| && forall o <- outcomes :: Succeeds(t, o)
  }

  /** No visible row at or below `cursor` is lost. */
  predicate Covered(t: Targets, r: Received, skipped: set<int>, audit: seq<int>, cursor: int) {
    forall id <- audit :: id <= cursor ==> Delivered(t, r, id) || id in skipped
  }

  lemma {:induction false} CoveredGrows(t: Targets, r: Received, r': Received, skipped: set<int>, skipped': set<int>,
                                        audit: seq<int>, cursor: int)
    requires Covered(t, r, skipped, audit, cursor) && Grows(r, r') && skipped <= skipped'
    ensures Covered(t, r', skipped', audit, cursor)
  {
  }

  /** Rows up to the new cursor lie below the old one or in the batch. */
  lemma {:induction false} CursorMoves(t: Targets, r: Received, skipped: set<int>, audit: seq<int>, lastId: int,
                                       k: nat, end: nat, maxId: int)
    requires Ascending(audit) && k <= end <= |audit| && maxId in audit[k..end]
    requires Covered(t, r, skipped, audit, lastId) && forall i :: 0 <= i < k ==> audit[i] <= lastId
    requires Covered(t, r, skipped, audit[k..end], maxId)
    ensures Covered(t, r, skipped, audit, maxId)
  {
  }

  // ---- What a batch does -------------------------------------------------------

  /** The first refused row from `i` on, or the end. */
  function StopFrom(t: Targets, outcomes: seq<RowOutcome>, i: nat): (stop: nat)
    requires i <= |outcomes|
    ensures i <= stop <= |outcomes|
    decreases |outcomes| - i
  {
    if i == |outcomes| || Refused(t, outcomes[i]) then i else StopFrom(t, outcomes, i + 1)
  }

  /** What the targets have after one row. */
  function Receive(t: Targets, r: Received, id: int, o: RowOutcome): Received {
    Received(
      r.webhook + (if t.webhook && o.Scanned? && o.webhookOk then {id} else {}),
      r.syslog + (if t.syslog && o.Scanned? && o.syslogOk then {id} else {}))
  }

  /** What they have after the first `n` rows. */
  function ReceiveAll(t: Targets, r: Received, rows: seq<int>, outcomes: seq<RowOutcome>, n: nat): Received
    requires n <= |rows| && n <= |outcomes|
  {
    if n == 0 then r else Receive(t, ReceiveAll(t, r, rows, outcomes, n - 1), rows[n - 1], outcomes[n - 1])
  }

  /** Those of the first `n` rows whose scan failed. */
  function Unread(rows: seq<int>, outcomes: seq<RowOutcome>, n: nat): set<int>
    requires n <= |rows| && n <= |outcomes|
  {
    if n == 0 then {}
    else Unread(rows, outcomes, n - 1) + if outcomes[n - 1].ScanFails? then {rows[n - 1]} else {}
  }

  /** The last of the first `n` rows that every target took, zero for none. */
  function LastSent(t: Targets, rows: seq<int>, outcomes: seq<RowOutcome>, n: nat): int
    requires n <= |rows| && n <= |outcomes|
  {
    if n == 0 then 0
    else if Succeeds(t, outcomes[n - 1]) then rows[n - 1]
    else LastSent(t, rows, outcomes, n - 1)
  }

  /** What one pass over a result set does to the targets, the cursor and the rows it goes past. */
  datatype Pass = Pass(received: Received, maxId: int, unread: set<int>)

  /** The outcomes of the rows that the result set yields. */
  function Yielded(rows: seq<int>, outcomes: seq<RowOutcome>): (os: seq<RowOutcome>)
    ensures |os| <= |rows| && os <= outcomes
  {
    if |outcomes| <= |rows| then outcomes else outcomes[..|rows|]
  }

  /** The refused row is the last one tried. */
  function Tried(t: Targets, outcomes: seq<RowOutcome>): (n: nat)
    ensures n <= |outcomes|
  {
    var stop := StopFrom(t, outcomes, 0);
    if stop < |outcomes| then stop + 1 else stop
  }

  function PassOver(t: Targets, rows: seq<int>, outcomes: seq<RowOutcome>, before: Received): Pass {
    var os := Yielded(rows, outcomes);
    var stop := StopFrom(t, os, 0);
    Pass(ReceiveAll(t, before, rows, os, Tried(t, os)), LastSent(t, rows, os, stop), Unread(rows, os, stop))
  }

  lemma {:induction false} StopIsFirst(t: Targets, outcomes: seq<RowOutcome>, i: nat)
    requires i <= |outcomes|
    ensures var stop := StopFrom(t, outcomes, i);
            && (forall j :: i <= j < stop ==> !Refused(t, outcomes[j]))
            && (stop < |outcomes| ==> Refused(t, outcomes[stop]))
    decreases |outcomes| - i
  {
    if i < |outcomes| && !Refused(t, outcomes[i]) {
      StopIsFirst(t, outcomes, i + 1);
    }
  }

  /** A target has exactly what it had, and the rows tried that it took. */
  lemma {:induction false} ReceivedExactly(t: Targets, r: Received, rows: seq<int>, outcomes: seq<RowOutcome>,
                                           n: nat, id: int)
    requires n <= |rows| && n <= |outcomes|
    ensures id in ReceiveAll(t, r, rows, outcomes, n).webhook <==>
            || id in r.webhook
            || exists i :: 0 <= i < n && rows[i] == id && t.webhook && outcomes[i].Scanned? && outcomes[i].webhookOk
    ensures id in ReceiveAll(t, r, rows, outcomes, n).syslog <==>
            || id in r.syslog
            || exists i :: 0 <= i < n && rows[i] == id && t.syslog && outcomes[i].Scanned? && outcomes[i].syslogOk
  {
    if n > 0 {
      ReceivedExactly(t, r, rows, outcomes, n - 1, id);
    }
  }

  lemma {:induction false} UnreadExactly(rows: seq<int>, outcomes: seq<RowOutcome>, n: nat, id: int)
    requires n <= |rows| && n <= |outcomes|
    ensures id in Unread(rows, outcomes, n) <==> exists i :: 0 <= i < n && rows[i] == id && outcomes[i].ScanFails?
  {
    if n > 0 {
      UnreadExactly(rows, outcomes, n - 1, id);
    }
  }

  lemma {:induction false} LastSentRow(t: Targets, rows: seq<int>, outcomes: seq<RowOutcome>, n: nat)
    requires n <= |rows| && n <= |outcomes|
    ensures var last := LastSent(t, rows, outcomes, n);
            last == 0 || exists i :: 0 <= i < n && rows[i] == last && Succeeds(t, outcomes[i])
  {
    if n > 0 {
      LastSentRow(t, rows, outcomes, n - 1);
    }
  }

  /** No row that every target took lies behind the last one sent. */
  lemma {:induction false} LastSentIsLast(t: Targets, rows: seq<int>, outcomes: seq<RowOutcome>, n: nat, i: nat)
    requires Ascending(rows) && (forall id <- rows :: 0 < id) && i < n <= |rows| && n <= |outcomes|
    requires Succeeds(t, outcomes[i])
    ensures rows[i] <= LastSent(t, rows, outcomes, n)
  {
    if !Succeeds(t, outcomes[n - 1]) {
      LastSentIsLast(t, rows, outcomes, n - 1, i);
    }
  }

  /** Progress: if the first row reaches every target, the cursor moves. */
  lemma {:induction false} FirstRowMoves(t: Targets, rows: seq<int>, outcomes: seq<RowOutcome>, before: Received)
    requires Ascending(rows) && (forall id <- rows :: 0 < id) && rows != [] && outcomes != []
    requires Succeeds(t, outcomes[0])
    ensures rows[0] <= PassOver(t, rows, outcomes, before).maxId
  {
    var os := Yielded(rows, outcomes);
    StopIsFirst(t, os, 0);
    LastSentIsLast(t, rows, os, StopFrom(t, os, 0), 0);
  }

  lemma {:induction false} ReceiveGrows(t: Targets, r: Received, rows: seq<int>, outcomes: seq<RowOutcome>, n: nat)
    requires n <= |rows| && n <= |outcomes|
    ensures Grows(r, ReceiveAll(t, r, rows, outcomes, n))
  {
    if n > 0 {
      ReceiveGrows(t, r, rows, outcomes, n - 1);
    }
  }

  /** No row up to the last one sent is lost: every target has it, or its own scan failed. */
  lemma {:induction false} PassCovers(t: Targets, rows: seq<int>, outcomes: seq<RowOutcome>, before: Received)
    requires Ascending(rows) && forall id <- rows :: 0 < id
    ensures var pass := PassOver(t, rows, outcomes, before);
            && Grows(before, pass.received)
            && (pass.maxId == 0 || pass.maxId in rows)
            && (forall id <- pass.unread :: id in rows)
            && Covered(t, pass.received, pass.unread, rows, pass.maxId)
  {
    var os, pass := Yielded(rows, outcomes), PassOver(t, rows, outcomes, before);
    var stop, tried := StopFrom(t, os, 0), Tried(t, os);
    ReceiveGrows(t, before, rows, os, tried);
    LastSentRow(t, rows, os, stop);
    StopIsFirst(t, os, 0);
    forall id | id in pass.unread
      ensures id in rows
    {
      UnreadExactly(rows, os, stop, id);
    }
    forall id | id in rows && id <= pass.maxId
      ensures Delivered(t, pass.received, id) || id in pass.unread
    {
      var i :| 0 <= i < |rows| && rows[i] == id;
      assert i < stop by {
        var k :| 0 <= k < stop && rows[k] == pass.maxId;
      }
      assert !Refused(t, os[i]);
      ReceivedExactly(t, before, rows, os, tried, id);
      UnreadExactly(rows, os, stop, id);
    }
  }

  /**
   Stopping at the first refusal: the cursor stays below a refused row, and no row behind it is
   sent, so that nothing is ever skipped.
   */
  lemma {:induction false} RefusalStops(t: Targets, rows: seq<int>, outcomes: seq<RowOutcome>, before: Received,
                                        i: nat, k: nat)
    requires Ascending(rows) && forall id <- rows :: 0 < id
    requires i < |rows| && i < |outcomes| && Refused(t, outcomes[i])
    ensures PassOver(t, rows, outcomes, before).maxId < rows[i]
    ensures i < k < |rows| ==>
              var after := PassOver(t, rows, outcomes, before).received;
              && (rows[k] in after.webhook <==> rows[k] in before.webhook)
              && (rows[k] in after.syslog <==> rows[k] in before.syslog)
  {
    var os := Yielded(rows, outcomes);
    StopIsFirst(t, os, 0);
    CursorBelow(t, rows, os, i);
    if i < k < |rows| {
      ReceivedExactly(t, before, rows, os, Tried(t, os), rows[k]);
    }
  }

  lemma {:induction false} CursorBelow(t: Targets, rows: seq<int>, os: seq<RowOutcome>, i: nat)
    requires Ascending(rows) && (forall id <- rows :: 0 < id) && |os| <= |rows|
    requires i < |os| && Refused(t, os[i])
    ensures StopFrom(t, os, 0) <= i && LastSent(t, rows, os, StopFrom(t, os, 0)) < rows[i]
  {
    var stop := StopFrom(t, os, 0);
    StopIsFirst(t, os, 0);
    LastSentRow(t, rows, os, stop);
    assert rows[i] in rows;
  }

  lemma {:induction false} SmoothReaches(t: Targets, rows: seq<int>, outcomes: seq<RowOutcome>, before: Received)
    requires rows != [] && Smooth(t, rows, outcomes)
    ensures PassOver(t, rows, outcomes, before).maxId == rows[|rows| - 1]
    ensures PassOver(t, rows, outcomes, before).unread == {}
  {
    var os := Yielded(rows, outcomes);
    assert forall j :: 0 <= j < |os| ==> os[j] == outcomes[j] && outcomes[j] in outcomes;
    StopIsFirst(t, os, 0);
    assert StopFrom(t, os, 0) == |os| == |rows| && Succeeds(t, os[|os| - 1]);
    forall id
      ensures id !in Unread(rows, os, |os|)
    {
      UnreadExactly(rows, os, |os|, id);
    }
  }

  lemma {:induction false} PassFacts(t: Targets, rows: seq<int>, outcomes: seq<RowOutcome>, before: Received)
    requires Ascending(rows) && forall id <- rows :: 0 < id
    ensures var pass := PassOver(t, rows, outcomes, before);
            && Covered(t, pass.received, pass.unread, rows, pass.maxId)
            && (rows != [] && Smooth(t, rows, outcomes) ==> pass.maxId == rows[|rows| - 1])
  {
    PassCovers(t, rows, outcomes, before);
    if rows != [] && Smooth(t, rows, outcomes) {
      SmoothReaches(t, rows, outcomes, before);
    }
  }

  /** Sends one row to the configured targets, each of them even when the other fails. */
  method ExportEvent(t: Targets, id: int, webhookOk: bool, syslogOk: bool, before: Received)
    returns (ok: bool, after: Received)
    ensures after == Receive(t, before, id, Scanned(webhookOk, syslogOk))
    ensures ok <==> Succeeds(t, Scanned(webhookOk, syslogOk))
  {
    ok, after := true, before;
    if t.webhook {
      if webhookOk {
        after := after.(webhook := after.webhook + {id});
      } else {
        ok := false;
      }
    }
    if t.syslog {
      if syslogOk {
        after := after.(syslog := after.syslog + {id});
      } else {
        ok := false;
      }
    }
  }

  /** Goes through the rows until the result set ends or a target refuses one. */
  method SendRows(t: Targets, rows: seq<int>, outcomes: seq<RowOutcome>, before: Received)
    returns (maxId: int, after: Received, ghost unread: set<int>)
    requires Ascending(rows) && forall id <- rows :: 0 < id
    ensures Pass(after, maxId, unread) == PassOver(t, rows, outcomes, before)
    ensures Covered(t, after, unread, rows, maxId)
    ensures rows != [] && Smooth(t, rows, outcomes) ==> maxId == rows[|rows| - 1]
  {
    maxId, after, unread := 0, before, {};
    ghost var os := Yielded(rows, outcomes);
    assert forall i :: 0 <= i < |rows| ==> rows[i] in rows;
    var j := 0;
    while j < |rows| && j < |outcomes|
      invariant 0 <= j <= |os| && StopFrom(t, os, 0) == StopFrom(t, os, j)
      invariant after == ReceiveAll(t, before, rows, os, j)
      invariant maxId == LastSent(t, rows, os, j) && unread == Unread(rows, os, j)
      invariant forall i :: j <= i < |rows| ==> maxId < rows[i]
      decreases |rows| - j
    {
      assert os[j] == outcomes[j];
      match outcomes[j] {
        case ScanFails =>
          unread := unread + {rows[j]};
        case Scanned(webhookOk, syslogOk) =>
          var ok;
          ok, after := ExportEvent(t, rows[j], webhookOk, syslogOk, after);
          if !ok {
            break;
          }
          if rows[j] > maxId {
            maxId := rows[j];
          }
      }
      j := j + 1;
    }
    PassFacts(t, rows, outcomes, before);
  }

  /** SELECT ... WHERE id > lastId ORDER BY id LIMIT 500; the rows start at position `k` of the log. */
  method FetchBatch(audit: seq<int>, lastId: int) returns (rows: seq<int>, k: nat)
    requires Ascending(audit)
    ensures rows == Batch(audit, lastId) && Ascending(rows)
    ensures k + |rows| <= |audit| && rows == audit[k..k + |rows|]
    ensures forall i :: 0 <= i < k ==> audit[i] <= lastId
    ensures forall id <- rows :: id in audit && lastId < id
  {
    k := FirstAbove(audit, lastId);
    RowsAboveFrom(audit, lastId, k);
    var end := if k + BATCH < |audit| then k + BATCH else |audit|;
    rows := audit[k..end];
  }

  /** Query and send: `maxId` is the last row sent in this tick, zero for none. */
  method Tick(t: Targets, audit: seq<int>, lastId: int, outcomes: seq<RowOutcome>,
              before: Received, ghost skipped: set<int>)
    returns (maxId: int, after: Received, ghost passed: set<int>)
    requires Ascending(audit) && (forall id <- audit :: 0 < id) && 0 <= lastId
    requires Covered(t, before, skipped, audit, lastId)
    ensures var pass := PassOver(t, Batch(audit, lastId), outcomes, before);
            maxId == pass.maxId && after == pass.received && passed == BelowCursor(pass.unread, maxId)
    ensures maxId == 0 || lastId < maxId
    ensures Grows(before, after)
    ensures Covered(t, after, skipped + passed, audit, if maxId > 0 then maxId else lastId)
    ensures var batch := Batch(audit, lastId);
            batch != [] && Smooth(t, batch, outcomes) ==> maxId == batch[|batch| - 1] && maxId > 0
  {
    var rows, k := FetchBatch(audit, lastId);
    assert rows != [] ==> rows[|rows| - 1] in rows;
    ghost var unread;
    maxId, after, unread := SendRows(t, rows, outcomes, before);
    PassCovers(t, rows, outcomes, before);
    passed := BelowCursor(unread, maxId);
    CoveredGrows(t, before, after, skipped, skipped + passed, audit, lastId);
    if maxId > 0 {
      CursorMoves(t, after, skipped + passed, audit, lastId, k, k + |rows|, maxId);
    }
  }

  /** The rows that the cursor has gone past. */
  function BelowCursor(ids: set<int>, cursor: int): set<int> {
    set id | id in ids && id <= cursor
  }

  class Exporter {
    const targets: Targets
    var lastId: int             // the cursor in memory
    var saved: Option<int>      // the cursor in the settings table
    var audit: seq<int>         // the visible rows of the audit log, by id
    var received: Received      // what the targets have
    ghost var skipped: set<int> // rows that a batch went past because their scan failed

    ghost predicate Valid()
      reads this
    {
      && Ascending(audit) && (forall id <- audit :: 0 < id)
      && 0 <= lastId && Covered(targets, received, skipped, audit, lastId)
      && (saved.Some? ==> 0 <= saved.value && Covered(targets, received, skipped, audit, saved.value))
    }

    constructor (targets: Targets)
      ensures Valid() && audit == [] && lastId == 0 && saved == None && this.targets == targets
      ensures received == Received({}, {}) && skipped == {}
    {
      this.targets := targets;
      lastId, saved, audit := 0, None, [];
      received, skipped := Received({}, {}), {};
    }

    /** A new row becomes visible, above both cursors. */
    method RowVisible(id: int)
      requires Valid() && lastId < id && (saved.Some? ==> saved.value < id) && id !in audit
      modifies this`audit
      ensures Valid() && multiset(audit) == multiset(old(audit)) + multiset{id}
    {
      var k := FirstAbove(audit, id);
      InsertAscending(audit, id, k);
      assert audit == audit[..k] + audit[k..];
      audit := audit[..k] + [id] + audit[k..];
    }

    /** At least once: a visible row at or below either cursor is with every target, or its scan failed. */
    lemma {:induction false} NothingLost(id: int)
      requires Valid() && id in audit && (id <= lastId || (saved.Some? && id <= saved.value))
      ensures targets.webhook ==> id in received.webhook || id in skipped
      ensures targets.syslog ==> id in received.syslog || id in skipped
    {
    }

    /** A tick gets as far as sending something. */
    predicate Runs(queryOk: bool) {
      (targets.webhook || targets.syslog) && queryOk
    }

    /**
     One tick; `outcomes` says what happens to the rows that the result set yields before it ends
     or breaks. The targets get exactly the rows up to the first refusal, the cursor goes to the
     last row that all of them took, and a row below it was delivered or its own scan failed.
     */
    method ExportBatch(queryOk: bool, outcomes: seq<RowOutcome>, saveOk: bool)
      requires Valid()
      modifies this`lastId, this`saved, this`received, this`skipped
      ensures Valid() && old(lastId) <= lastId && Grows(old(received), received)
      ensures !Runs(queryOk) ==> lastId == old(lastId) && received == old(received) && skipped == old(skipped)
      ensures Runs(queryOk) ==>
          var pass := PassOver(targets, Batch(audit, old(lastId)), outcomes, old(received));
          && received == pass.received
          && lastId == (if pass.maxId > 0 then pass.maxId else old(lastId))
          && skipped == old(skipped) + BelowCursor(pass.unread, pass.maxId)
      ensures saved == if saveOk && old(lastId) < lastId then Some(lastId) else old(saved)
      ensures var batch := Batch(audit, old(lastId));
              batch != [] && queryOk && Smooth(targets, batch, outcomes) ==> lastId == batch[|batch| - 1]
    {
      if !targets.webhook && !targets.syslog {
        return;
      }
      if !queryOk {
        return;
      }
      ghost var passed;
      var maxId, after;
      maxId, after, passed := Tick(targets, audit, lastId, outcomes, received, skipped);
      if saved.Some? {
        CoveredGrows(targets, received, after, skipped, skipped + passed, audit, saved.value);
      }
      received, skipped := after, skipped + passed;
      if maxId > 0 {
        lastId := maxId;
        if saveOk {
          saved := Some(maxId);
        }
      }
    }

    /** A new process starts at zero and takes over the saved cursor if it can read it. */
    method Restart(loadOk: bool)
      requires Valid()
      modifies this`lastId
      ensures Valid() && lastId == if loadOk && saved.Some? then saved.value else 0
    {
      lastId := 0;
      if loadOk && saved.Some? {
        lastId := saved.value;
      }
    }
  }
}
