/** The durable row of one synchronous handoff: its state, its failed repairs and when the next is due. */
module HandoffTracker {
  import opened Outcomes

  datatype HandoffState = AwaitingBooks | Accepted | ReversalPending | Reversed | Abandoned

  datatype HandoffRow = HandoffRow(
    event: nat, state: HandoffState, attempts: nat, nextRetry: Option<int>, completed: bool)

  const MAX_REPAIR_ATTEMPTS := 12

  predicate Settled(state: HandoffState) { state == Accepted || state == Reversed || state == Abandoned }

  // ------------------------------------------------------------------ the back-off

  function Pow2(n: nat): (p: nat)
    ensures 1 <= p
  {
    if n == 0 then 1 else 2 * Pow2(n - 1)
  }

  function BackoffSeconds(attempts: nat): int
  {
    var doublings := if attempts == 0 then 0 else (if attempts < 10 then attempts else 10) - 1;
    if 30 * Pow2(doublings) < 1800 then 30 * Pow2(doublings) else 1800
  }

  lemma {:induction false} Pow2Grows(m: nat, n: nat)
    requires m <= n
    ensures Pow2(m) <= Pow2(n)
  {
    if m < n {
      Pow2Grows(m, n - 1);
    }
  }

  /** Half a minute, doubling with every failure up to the sixth, then half an hour for good. */
  lemma BackoffDoublesThenHolds(n: nat)
    ensures BackoffSeconds(0) == BackoffSeconds(1) == 30
    ensures 1 <= n < 6 ==> BackoffSeconds(n + 1) == 2 * BackoffSeconds(n)
    ensures 7 <= n ==> BackoffSeconds(n) == 1800
    ensures 30 <= BackoffSeconds(n) <= 1800
      && BackoffSeconds(n) <= BackoffSeconds(n + 1)
  {
    assert Pow2(0) == 1 && Pow2(1) == 2 && Pow2(2) == 4 && Pow2(3) == 8 && Pow2(4) == 16 && Pow2(5) == 32
      && Pow2(6) == 64;
    if 7 <= n {
      Pow2Grows(6, if n < 10 then n - 1 else 9);
      Pow2Grows(6, if n + 1 < 10 then n else 9);
    }
  }

  // ------------------------------------------------------------------ one row

  function Claimed(event: nat): HandoffRow { HandoffRow(event, AwaitingBooks, 0, None, false) }

  /** An unconditional move. Settling closes the row; a decided reversal is due at once. */
  function Moved(row: HandoffRow, state: HandoffState): HandoffRow
  {
    row.(state := state, nextRetry := None, completed := row.completed || Settled(state))
  }

  function Failed(row: HandoffRow, state: HandoffState, now: int): HandoffRow
  {
    var attempts := row.attempts + 1;
    row.(state := state, attempts := attempts,
         nextRetry := if MAX_REPAIR_ATTEMPTS <= attempts then None else Some(now + BackoffSeconds(attempts)))
  }

  /** The one conditional move: only a row still waiting is closed by a delivery. */
  function Completed(row: HandoffRow): HandoffRow
  {
    if row.state == AwaitingBooks then row.(state := Accepted, nextRetry := None, completed := true) else row
  }

  predicate IsDue(row: HandoffRow, now: int)
  {
    row.state == ReversalPending && row.attempts < MAX_REPAIR_ATTEMPTS
      && (row.nextRetry.Some? ==> row.nextRetry.value <= now)
  }

  function DueAmong(rows: map<nat, HandoffRow>, ids: seq<nat>, now: int): seq<nat>
  {
    if ids == [] then []
    else DueAmong(rows, ids[..|ids| - 1], now) +
         if ids[|ids| - 1] in rows && IsDue(rows[ids[|ids| - 1]], now) then [ids[|ids| - 1]] else []
  }

  function Take(s: seq<nat>, limit: nat): seq<nat> { if |s| <= limit then s else s[..limit] }

  // ------------------------------------------------------------------ the table

  /** inv_books_journal_handoffs; without the table every call does nothing. */
  class Tracker {
    const tableExists: bool
    var rows: map<nat, HandoffRow>
    var nextId: nat

    constructor (tableExists: bool)
      ensures this.tableExists == tableExists && rows == map[] && nextId == 1
    {
      this.tableExists, rows, nextId := tableExists, map[], 1;
    }

    ghost predicate Valid() reads this { 1 <= nextId && forall id :: id in rows ==> 0 < id < nextId }

    method Claim(event: nat) returns (id: nat)
      requires Valid()
      modifies this
      ensures Valid()
      ensures !tableExists || event == 0 ==> id == 0 && rows == old(rows)
      ensures tableExists && event != 0 ==>
        id !in old(rows) && rows == old(rows)[id := HandoffRow(event, AwaitingBooks, 0, None, false)]
    {
      if !tableExists || event == 0 {
        return 0;
      }
      id := nextId;
      rows := rows[id := Claimed(event)];
      nextId := nextId + 1;
    }

    method Transition(id: nat, state: HandoffState)
      requires Valid()
      modifies this`rows
      ensures Valid()
      ensures rows == if tableExists
        && id in old(rows) then old(rows)[id := Moved(old(rows)[id], state)] else old(rows)
    {
      if tableExists && id in rows {
        var row := rows[id].(state := state, nextRetry := None);
        if Settled(state) {
          row := row.(completed := true);
        }
        rows := rows[id := row];
      }
    }

    method RecordFailure(id: nat, state: HandoffState, now: int)
      requires Valid()
      modifies this`rows
      ensures Valid()
      ensures rows == if tableExists
        && id in old(rows) then old(rows)[id := Failed(old(rows)[id], state, now)] else old(rows)
    {
      if tableExists && id in rows {
        var attempts := rows[id].attempts + 1;
        var retry := None;
        if attempts < MAX_REPAIR_ATTEMPTS {
          retry := Some(now + BackoffSeconds(attempts));
        }
        rows := rows[id := rows[id].(state := state, attempts := attempts, nextRetry := retry)];
      }
    }

    method CompleteForEvent(event: nat)
      requires Valid()
      modifies this`rows
      ensures Valid()
      ensures rows.Keys == old(rows).Keys
      ensures forall id :: id in rows ==>
        var row := old(rows)[id];
        rows[id] == if tableExists && event != 0 && row.event == event then Completed(row) else row
    {
      if tableExists && event != 0 {
        rows := map id | id in rows ::
          if rows[id].event == event && rows[id].state == AwaitingBooks
          then rows[id].(state := Accepted, nextRetry := None, completed := true)
          else rows[id];
      }
    }

    /** The repair queue, oldest first. ids is the table's key order. */
    method DueRepairs(ids: seq<nat>, now: int, limit: nat) returns (due: seq<nat>)
      requires forall i, j :: 0 <= i < j < |ids| ==> ids[i] < ids[j]
      requires forall id :: id in ids <==> id in rows
      ensures due == if tableExists then Take(DueAmong(rows, ids, now), limit) else []
      ensures |due| <= limit && due <= DueAmong(rows, ids, now)
      ensures tableExists && |due| < limit ==> due == DueAmong(rows, ids, now)
    {
      due := [];
      if !tableExists {
        return;
      }
      for i := 0 to |ids|
        invariant due == Take(DueAmong(rows, ids[..i], now), limit)
      {
        assert ids[..i + 1][..i] == ids[..i];
        assert ids[i] in ids;
        if IsDue(rows[ids[i]], now) && |due| < limit {
          due := due + [ids[i]];
        }
      }
      assert ids[..|ids|] == ids;
    }
  }

  predicate Ascending(s: seq<nat>) { forall i, j :: 0 <= i < j < |s| ==> s[i] < s[j] }

  /** The queue is served oldest first. */
  lemma {:induction false} DueInOrder(rows: map<nat, HandoffRow>, ids: seq<nat>, now: int, limit: nat)
    requires Ascending(ids)
    ensures Ascending(DueAmong(rows, ids, now))
      && Ascending(Take(DueAmong(rows, ids, now), limit))
  {
    if ids != [] {
      var before, last := ids[..|ids| - 1], ids[|ids| - 1];
      var due := DueAmong(rows, before, now);
      DueInOrder(rows, before, now, limit);
      assert forall j :: 0 <= j < |before| ==> before[j] < last;
      forall i | 0 <= i < |due|
        ensures due[i] < last
      {
        DueAreDue(rows, before, now, due[i]);
      }
    }
  }

  /** Exactly the due rows are repaired, when the limit leaves room for all of them. */
  lemma {:induction false} DueAreDue(rows: map<nat, HandoffRow>, ids: seq<nat>, now: int, id: nat)
    ensures id in DueAmong(rows, ids, now)
      <==> id in ids && id in rows && rows[id].state == ReversalPending && rows[id].attempts < 12
           && (rows[id].nextRetry.None? || rows[id].nextRetry.value <= now)
  {
    if ids != [] {
      DueAreDue(rows, ids[..|ids| - 1], now, id);
      assert ids == ids[..|ids| - 1] + [ids[|ids| - 1]];
    }
  }

  /** A move closes the row when it settles it, and takes its next repair off the clock. */
  lemma MovesSettle(row: HandoffRow, state: HandoffState)
    ensures var moved := Moved(row, state);
      && moved.event == row.event && moved.state == state && moved.attempts == row.attempts && moved.nextRetry == None
      && (moved.completed <==> row.completed || state == Accepted || state == Reversed || state == Abandoned)
  {
  }

  /** A delivery accepts a row still waiting, and changes no other. */
  lemma DeliveryAccepts(row: HandoffRow)
    ensures Completed(row)
      == if row.state == AwaitingBooks then HandoffRow(row.event, Accepted, row.attempts, None, true) else row
  {
  }

  function FailedTimes(row: HandoffRow, times: nat, nows: seq<int>): HandoffRow
    requires times <= |nows|
  {
    if times == 0 then row else Failed(FailedTimes(row, times - 1, nows), ReversalPending, nows[times - 1])
  }

  /** Twelve failures after the reversal was decided, and not before, a row waits for a person. */
  lemma {:induction false} RetriedTwelveTimes(row: HandoffRow, times: nat, nows: seq<int>)
    requires row.state == ReversalPending && row.attempts == 0 && row.nextRetry.None? && times <= |nows|
    ensures var after := FailedTimes(row, times, nows);
      && after.state == ReversalPending && after.attempts == times
      && ((exists now :: IsDue(after, now)) <==> times < 12)
      && (0 < times < 12 ==> forall now ::
          IsDue(after, now) <==> nows[times - 1] + BackoffSeconds(times) <= now)
  {
    if times > 0 {
      RetriedTwelveTimes(row, times - 1, nows);
    }
    var after := FailedTimes(row, times, nows);
    if times < MAX_REPAIR_ATTEMPTS {
      assert IsDue(after, if after.nextRetry.Some? then after.nextRetry.value else 0);
    }
  }
}
