/**
 The statements that backend/acquisition/runner.py and the requests of
 backend/services/acquisition_service.py run against the acquisition table, as updates in place.
 Wherever the code awaits between two statements, `found` is the table as the other writers have
 left it by then.  Each method applies the row functions of `AcquisitionLease` to the row it
 names and to no other.
 */
module AcquisitionRunner {
  import opened Common
  import opened AcquisitionLease

  type ExecutionId = nat
  type Table = map<ExecutionId, Row>

  predicate Owns(rows: Table, id: ExecutionId, w: Worker) {
    id in rows && OwnedBy(rows[id], w)
  }

  function BeatIn(rows: Table, id: ExecutionId, w: Worker, now: int): Table {
    if id in rows then rows[id := Beaten(rows[id], w, now)] else rows
  }

  /** A beat extends the lease to 30 seconds from its reading exactly while the row is RUNNING under the worker. */
  lemma BeatExtendsIff(rows: Table, id: ExecutionId, w: Worker, now: int)
    ensures Owns(rows, id, w) <==> id in rows && rows[id].status == Running && rows[id].owner == Some(w)
    ensures BeatIn(rows, id, w, now)
            == if id in rows && rows[id].status == Running && rows[id].owner == Some(w)
               then rows[id := Row(Running, Some(w), Some(now + 30_000_000))] else rows
  {
    assert id in rows ==> rows[id := rows[id]] == rows;
  }

  // ----- recovery ------------------------------------------------------------------------------

  /** What the recovery query answers, in its order: the rows to requeue and, at start-up, the queued ones. */
  function Picked(rows: Table, order: seq<ExecutionId>, now: int, includeQueued: bool): seq<(ExecutionId, Status)> {
    if order == [] then []
    else
      var id := order[|order| - 1];
      Picked(rows, order[..|order| - 1], now, includeQueued)
      + (if id in rows && (Selected(rows[id], now) || (includeQueued && rows[id].status.Queued?))
         then [(id, rows[id].status)] else [])
  }

  /** The requeue of a picked row still finds it eligible. */
  predicate StillEligible(rows: Table, id: ExecutionId, seen: Seen) {
    id in rows && (if seen.status.Running? then Expired(rows[id], seen.now) else rows[id].status.Accepted?)
  }

  /** The executions a recovery dispatches: picked as QUEUED, or still eligible when their update runs. */
  function Dispatched(picked: seq<(ExecutionId, Status)>, found: nat -> Table, now: int): seq<ExecutionId> {
    if picked == [] then []
    else
      var n := |picked| - 1;
      var (id, status) := picked[n];
      Dispatched(picked[..n], found, now)
      + (if status.Queued? || StillEligible(found(n), id, Seen(status, now)) then [id] else [])
  }

  /** The table after the last picked row has been handled. */
  function Recovered(picked: seq<(ExecutionId, Status)>, found: nat -> Table, now: int, start: Table): Table {
    if picked == [] then start
    else
      var n := |picked| - 1;
      var (id, status) := picked[n];
      if !status.Queued? && id in found(n) then found(n)[id := Requeued(found(n)[id], Seen(status, now))] else found(n)
  }

  /** A picked row that nobody touched is requeued and would not be picked again; a renewed lease is left alone. */
  lemma RecoveryTakesExactlyTheExpired(row: Row, later: Row, now: int)
    requires Selected(row, now)
    ensures Requeued(row, Seen(row.status, now)) == Released(Queued) && !Selected(Released(Queued), now)
    ensures later.status.Running? && later.expires.Some? && later.expires.value > now ==>
              Requeued(later, Seen(row.status, now)) == later
  {
  }

  /** The recovery query wants a row of this status. */
  predicate Wanted(row: Row, now: int, includeQueued: bool) {
    match row.status
    case Accepted => true
    case Running => row.expires.None? || row.expires.value <= now
    case Queued => includeQueued
    case _ => false
  }

  /** The query picks exactly the rows it wants, with the status they have. */
  lemma {:induction false} PickedIff(rows: Table, order: seq<ExecutionId>, now: int, includeQueued: bool, id: ExecutionId, status: Status)
    ensures (id, status) in Picked(rows, order, now, includeQueued) <==>
            id in order && id in rows && rows[id].status == status && Wanted(rows[id], now, includeQueued)
  {
    if order != [] {
      var front, last := order[..|order| - 1], order[|order| - 1];
      PickedIff(rows, front, now, includeQueued, id, status);
      assert order == front + [last];
    }
  }

  /** The picks keep the order of the query: a pick further on stands for a row further on. */
  lemma {:induction false} PickedKeepsOrder(rows: Table, order: seq<ExecutionId>, now: int, includeQueued: bool) returns (at: seq<nat>)
    ensures |at| == |Picked(rows, order, now, includeQueued)|
    ensures forall i :: 0 <= i < |at| ==> at[i] < |order| && order[at[i]] == Picked(rows, order, now, includeQueued)[i].0
    ensures forall i, j :: 0 <= i < j < |at| ==> at[i] < at[j]
  {
    if order == [] {
      at := [];
    } else {
      var n := |order| - 1;
      at := PickedKeepsOrder(rows, order[..n], now, includeQueued);
      if |Picked(rows, order, now, includeQueued)| > |at| {
        at := at + [n];
      }
    }
  }

  /** Pick `k` is dispatched: it was queued, or its update still finds the row accepted, or running without a live lease. */
  predicate Dispatches(picked: seq<(ExecutionId, Status)>, found: nat -> Table, now: int, k: nat)
    requires k < |picked|
  {
    var (id, status) := picked[k];
    || status.Queued?
    || (&& id in found(k)
        && var row := found(k)[id];
           if status.Running? then row.status.Running? && (row.expires.None? || row.expires.value <= now) else row.status.Accepted?)
  }

  /** The dispatched executions are exactly those picks, in their order. */
  lemma {:induction false} DispatchedIff(picked: seq<(ExecutionId, Status)>, found: nat -> Table, now: int, id: ExecutionId)
    ensures id in Dispatched(picked, found, now) <==>
            exists k :: 0 <= k < |picked| && picked[k].0 == id && Dispatches(picked, found, now, k)
  {
    if picked != [] {
      var n := |picked| - 1;
      var front := picked[..n];
      DispatchedIff(front, found, now, id);
      assert forall k :: 0 <= k < n ==> front[k] == picked[k] && (Dispatches(front, found, now, k) <==> Dispatches(picked, found, now, k));
      assert StillEligible(found(n), picked[n].0, Seen(picked[n].1, now)) || picked[n].1.Queued? <==> Dispatches(picked, found, now, n);
      if k :| 0 <= k < n && picked[k].0 == id && Dispatches(picked, found, now, k) {
        assert front[k].0 == id && Dispatches(front, found, now, k);
      }
    }
  }

  /**
   Recovery of a table that nobody else touches: exactly the wanted rows are dispatched, and
   afterwards each of them is queued without an owner and every other row is as it was.
   */
  lemma {:induction false} QuietRecovery(rows: Table, order: seq<ExecutionId>, now: int, includeQueued: bool, found: nat -> Table, id: ExecutionId)
    requires forall i, j :: 0 <= i < j < |order| ==> order[i] != order[j]
    requires var picked := Picked(rows, order, now, includeQueued);
             forall k :: 0 <= k < |picked| ==> found(k) == Recovered(picked[..k], found, now, rows)
    ensures var picked := Picked(rows, order, now, includeQueued);
            && (id in Dispatched(picked, found, now) <==> id in order && id in rows && Wanted(rows[id], now, includeQueued))
            && Get(Recovered(picked, found, now, rows), id)
               == if id in rows && id in order && Wanted(rows[id], now, includeQueued) && !rows[id].status.Queued?
                  then Some(Row(Queued, None, None)) else Get(rows, id)
  {
    var picked := Picked(rows, order, now, includeQueued);
    PicksAreDistinct(rows, order, now, includeQueued);
    RecoveredSoFar(rows, picked, now, found, |picked|, id);
    assert picked[..|picked|] == picked;
    DispatchedIff(picked, found, now, id);
    if id in rows {
      PickedIff(rows, order, now, includeQueued, id, rows[id].status);
    }
    forall k | 0 <= k < |picked| && picked[k].0 == id ensures id in rows && Dispatches(picked, found, now, k) {
      PickedIff(rows, order, now, includeQueued, id, picked[k].1);
      assert picked[k] in picked;
      RecoveredSoFar(rows, picked, now, found, k, id);
    }
  }

  lemma PicksAreDistinct(rows: Table, order: seq<ExecutionId>, now: int, includeQueued: bool)
    requires forall i, j :: 0 <= i < j < |order| ==> order[i] != order[j]
    ensures var picked := Picked(rows, order, now, includeQueued);
            && (forall i, j :: 0 <= i < j < |picked| ==> picked[i].0 != picked[j].0)
            && (forall k :: 0 <= k < |picked| ==> picked[k].0 in rows && rows[picked[k].0].status == picked[k].1
                                                  && Wanted(rows[picked[k].0], now, includeQueued))
  {
    var picked := Picked(rows, order, now, includeQueued);
    var at := PickedKeepsOrder(rows, order, now, includeQueued);
    forall k | 0 <= k < |picked|
      ensures picked[k].0 in rows && rows[picked[k].0].status == picked[k].1 && Wanted(rows[picked[k].0], now, includeQueued)
    {
      assert picked[k] in picked;
      PickedIff(rows, order, now, includeQueued, picked[k].0, picked[k].1);
    }
  }

  /** The table before pick `n` is handled, when nobody else writes. */
  lemma {:induction false} RecoveredSoFar(rows: Table, picked: seq<(ExecutionId, Status)>, now: int, found: nat -> Table, n: nat, id: ExecutionId)
    requires n <= |picked| && forall k :: 0 <= k < |picked| ==> found(k) == Recovered(picked[..k], found, now, rows)
    requires forall i, j :: 0 <= i < j < |picked| ==> picked[i].0 != picked[j].0
    requires forall k :: 0 <= k < |picked| ==>
               && picked[k].0 in rows && rows[picked[k].0].status == picked[k].1
               && (picked[k].1.Running? ==> rows[picked[k].0].expires.None? || rows[picked[k].0].expires.value <= now)
               && picked[k].1 in {Accepted, Running, Queued}
    ensures Get(Recovered(picked[..n], found, now, rows), id)
            == if RequeuedBefore(picked, n, id) then Some(Row(Queued, None, None)) else Get(rows, id)
  {
    if n > 0 {
      var (last, status) := picked[n - 1];
      assert picked[..n][..n - 1] == picked[..n - 1];
      RequeuedSoFar(picked, n, id);
      RecoveredSoFar(rows, picked, now, found, n - 1, id);
      RecoveredSoFar(rows, picked, now, found, n - 1, last);
      assert !RequeuedBefore(picked, n - 1, last);
    }
  }

  /** One of the first `n` picks is a row with this id that is not queued yet. */
  predicate RequeuedBefore(picked: seq<(ExecutionId, Status)>, n: nat, id: ExecutionId)
    requires n <= |picked|
  {
    exists k :: 0 <= k < n && picked[k].0 == id && !picked[k].1.Queued?
  }

  lemma RequeuedSoFar(picked: seq<(ExecutionId, Status)>, n: nat, id: ExecutionId)
    requires 0 < n <= |picked|
    ensures RequeuedBefore(picked, n, id) <==>
            RequeuedBefore(picked, n - 1, id) || (picked[n - 1].0 == id && !picked[n - 1].1.Queued?)
  {
  }

  class ExecutionTable {
    var rows: Table

    constructor ()
      ensures rows == map[]
    {
      rows := map[];
    }

    method ClaimExecution(id: ExecutionId, w: Worker, now: int) returns (claimed: bool)
      modifies this
      ensures claimed <==> id in old(rows) && old(rows)[id].status.Queued?
      ensures rows == if claimed then old(rows)[id := Claimed(old(rows)[id], w, now)] else old(rows)
    {
      claimed := false;
      if id in rows && rows[id].status == Queued {
        rows := rows[id := Row(Running, Some(w), Some(now + LEASE))];
        claimed := true;
      }
    }

    method Heartbeat(id: ExecutionId, w: Worker, now: int) returns (held: bool)
      modifies this
      ensures held <==> Owns(old(rows), id, w)
      ensures rows == if held then old(rows)[id := Beaten(old(rows)[id], w, now)] else old(rows)
    {
      held := false;
      if id in rows && rows[id].status == Running && rows[id].owner == Some(w) {
        rows := rows[id := rows[id].(expires := Some(now + LEASE))];
        held := true;
      }
    }

    /**
     The heartbeat task: one beat per clock reading, each on the table as it is by then, until the
     first beat that finds the lease gone.
     */
    method HeartbeatExecution(id: ExecutionId, w: Worker, readings: seq<int>, found: seq<Table>)
      returns (leaseLost: bool, beats: nat)
      requires |found| == |readings|
      modifies this
      ensures beats <= |found| && forall i :: 0 <= i < beats ==> Owns(found[i], id, w)
      ensures leaseLost <==> beats < |found|
      ensures leaseLost ==> !Owns(found[beats], id, w) && rows == found[beats]
      ensures !leaseLost && beats > 0 ==> rows == BeatIn(found[beats - 1], id, w, readings[beats - 1])
      ensures found == [] ==> rows == old(rows)
    {
      leaseLost, beats := false, 0;
      while beats < |readings|
        invariant beats <= |found| && !leaseLost
        invariant forall i :: 0 <= i < beats ==> Owns(found[i], id, w)
        invariant beats == 0 ==> rows == old(rows)
        invariant beats > 0 ==> rows == BeatIn(found[beats - 1], id, w, readings[beats - 1])
      {
        rows := found[beats];
        var held := Heartbeat(id, w, readings[beats]);
        if !held {
          leaseLost := true;
          return;
        }
        beats := beats + 1;
      }
    }

    method FailExecution(id: ExecutionId, w: Worker)
      modifies this
      ensures rows == if id in old(rows) then old(rows)[id := FailedBy(old(rows)[id], w)] else old(rows)
    {
      if id in rows {
        if rows[id].status == Running && rows[id].owner == Some(w) {
          rows := rows[id := Row(Failed, None, None)];
        }
      }
    }

    /** A commit keyed by the row alone: the columns changed since the read are written over whatever is there. */
    method CommitOver(id: ExecutionId, seen: Row, target: Row, found: Table)
      modifies this
      ensures rows == if id in found then found[id := Overwritten(found[id], seen, target)] else found
    {
      rows := found;
      if id in rows {
        var row := rows[id];
        if target.status != seen.status { row := row.(status := target.status); }
        if target.owner != seen.owner { row := row.(owner := target.owner); }
        if target.expires != seen.expires { row := row.(expires := target.expires); }
        rows := rows[id := row];
      }
    }

    /** The finish: a check of the row as it is, and a commit over the row as it has become. */
    method FinishExecution(id: ExecutionId, w: Worker, success: bool, found: Table) returns (finished: bool)
      modifies this
      ensures finished <==> Owns(old(rows), id, w)
      ensures !finished ==> rows == old(rows)
      ensures finished ==>
                rows == if id in found then found[id := Overwritten(found[id], old(rows)[id], Released(Outcome(success)))] else found
    {
      if id !in rows || rows[id].status != Running || rows[id].owner != Some(w) {
        return false;
      }
      CommitOver(id, rows[id], Row(if success then Succeeded else Failed, None, None), found);
      return true;
    }

    method CancelExecution(id: ExecutionId, found: Table) returns (committed: bool)
      modifies this
      ensures committed <==> id in old(rows) && Cancellable(old(rows)[id].status)
      ensures !committed ==> rows == old(rows)
      ensures committed ==>
                rows == if id in found then found[id := Committed(found[id], Cancelling(old(rows)[id]))] else found
    {
      if id !in rows || !Cancellable(rows[id].status) {
        return false;
      }
      CommitOver(id, rows[id], Row(Cancelled, None, None), found);
      return true;
    }

    method QueueExecution(id: ExecutionId, found: Table) returns (committed: bool)
      modifies this
      ensures committed <==> id in old(rows) && old(rows)[id].status.Accepted?
      ensures !committed ==> rows == old(rows)
      ensures committed ==>
                rows == if id in found then found[id := Committed(found[id], Queueing(old(rows)[id]))] else found
    {
      if id !in rows || rows[id].status != Accepted {
        return false;
      }
      CommitOver(id, rows[id], rows[id].(status := Queued), found);
      return true;
    }

    /** The conditional update of one picked execution; the row may have changed since it was picked. */
    method RequeueSeen(id: ExecutionId, seen: Seen) returns (requeued: bool)
      modifies this
      ensures requeued <==> StillEligible(old(rows), id, seen)
      ensures rows == if id in old(rows) then old(rows)[id := Requeued(old(rows)[id], seen)] else old(rows)
    {
      requeued := false;
      if id in rows {
        var row := rows[id];
        var eligible := if seen.status == Running
                        then row.status == Running && (row.expires.None? || row.expires.value <= seen.now)
                        else row.status == Accepted;
        if eligible {
          rows := rows[id := Row(Queued, None, None)];
          requeued := true;
        }
      }
    }

    method PickExecutions(order: seq<ExecutionId>, now: int, includeQueued: bool) returns (picked: seq<(ExecutionId, Status)>)
      ensures picked == Picked(rows, order, now, includeQueued)
    {
      picked := [];
      var i := 0;
      while i < |order|
        invariant 0 <= i <= |order|
        invariant picked == Picked(rows, order[..i], now, includeQueued)
      {
        var id := order[i];
        assert order[..i + 1][..i] == order[..i];
        if id in rows && (Selected(rows[id], now) || (includeQueued && rows[id].status == Queued)) {
          picked := picked + [(id, rows[id].status)];
        }
        i := i + 1;
      }
      assert order[..i] == order;
    }

    /** Recovery: one query, then one conditional update per picked row, on the table as it is by then. */
    method RecoverExecutions(order: seq<ExecutionId>, now: int, includeQueued: bool, found: nat -> Table)
      returns (ids: seq<ExecutionId>)
      modifies this
      ensures ids == Dispatched(Picked(old(rows), order, now, includeQueued), found, now)
      ensures rows == Recovered(Picked(old(rows), order, now, includeQueued), found, now, old(rows))
    {
      var picked := PickExecutions(order, now, includeQueued);
      ids := [];
      var i := 0;
      while i < |picked|
        invariant 0 <= i <= |picked|
        invariant ids == Dispatched(picked[..i], found, now)
        invariant rows == Recovered(picked[..i], found, now, old(rows))
      {
        assert picked[..i + 1][..i] == picked[..i];
        var (id, status) := picked[i];
        rows := found(i);
        var dispatch := status == Queued;
        if !dispatch {
          dispatch := RequeueSeen(id, Seen(status, now));
        }
        if dispatch {
          ids := ids + [id];
        }
        i := i + 1;
      }
      assert picked[..i] == picked;
    }
  }
}
