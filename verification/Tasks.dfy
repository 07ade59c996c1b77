/** The parser_tasks table and the repository functions that write it.
    Every write is unconditional on the row's current status, as in the source. */
module Tasks {
  import opened Base

  datatype Status = Pending | Running | Done | Error

  datatype TaskRow = TaskRow(
    status: Status,
    priority: int,
    createdAt: int,
    startedAt: Option<int>,
    finishedAt: Option<int>,
    retryCount: nat)

  type Table = map<nat, TaskRow>

  // ---------------- what each write does to the table ----------------

  function Created(t: Table, id: nat, priority: int, now: int): Table {
    t[id := TaskRow(Pending, priority, now, None, None, 0)]
  }

  function Claimed(t: Table, ids: seq<nat>, now: int): Table {
    map id | id in t ::
      if id in ids then t[id].(status := Running, startedAt := Some(now)) else t[id]
  }

  function MarkedDone(t: Table, id: nat, now: int): Table {
    if id in t then t[id := t[id].(status := Done, finishedAt := Some(now))] else t
  }

  function MarkedError(t: Table, id: nat, now: int, retry: bool): Table {
    if id !in t then t
    else if retry then
      t[id := t[id].(status := Pending, startedAt := None, retryCount := t[id].retryCount + 1)]
    else
      t[id := t[id].(status := Error, finishedAt := Some(now))]
  }

  function Requeued(t: Table, id: nat): Table {
    if id in t then t[id := t[id].(status := Pending, startedAt := None)] else t
  }

  predicate Stale(row: TaskRow, cutoff: int) {
    row.status.Running? && row.startedAt.Some? && row.startedAt.value < cutoff
  }

  function Recovered(t: Table, cutoff: int): Table {
    map id | id in t ::
      if Stale(t[id], cutoff) then t[id].(status := Pending, startedAt := None) else t[id]
  }

  /** ORDER BY priority DESC, created_at; ties are left to the database. */
  predicate Before(a: TaskRow, b: TaskRow) {
    a.priority > b.priority || (a.priority == b.priority && a.createdAt <= b.createdAt)
  }

  /** What SELECT ... ORDER BY ... LIMIT ... FOR UPDATE SKIP LOCKED may answer while other
      transactions hold the rows in `locked`. */
  predicate IsSelection(t: Table, locked: set<nat>, limit: nat, ids: seq<nat>) {
    && |ids| <= limit
    && (forall i :: 0 <= i < |ids| ==> ids[i] in t && t[ids[i]].status.Pending? && ids[i] !in locked)
    && (forall i, j :: 0 <= i < j < |ids| ==> ids[i] != ids[j] && Before(t[ids[i]], t[ids[j]]))
    && (forall id :: id in t && t[id].status.Pending? && id !in locked && id !in ids ==>
          |ids| == limit && forall i :: 0 <= i < |ids| ==> Before(t[ids[i]], t[id]))
  }

  /** The poller takes urgent tasks before others, and of one priority the older; what it leaves is less
      urgent or younger than all it takes, and it leaves something only when it is full. */
  lemma {:induction false} UrgentFirst(t: Table, locked: set<nat>, limit: nat, ids: seq<nat>, i: nat)
    requires IsSelection(t, locked, limit, ids) && i < |ids|
    ensures |ids| <= limit && ids[i] in t && t[ids[i]].status.Pending? && ids[i] !in locked
    ensures forall j :: 0 <= j < |ids| && j != i ==> ids[j] != ids[i]
    ensures forall j :: i < j < |ids| ==>
              t[ids[i]].priority > t[ids[j]].priority
              || (t[ids[i]].priority == t[ids[j]].priority && t[ids[i]].createdAt <= t[ids[j]].createdAt)
    ensures forall id :: id in t && t[id].status.Pending? && id !in locked && id !in ids ==>
              && |ids| == limit
              && (t[ids[i]].priority > t[id].priority
                  || (t[ids[i]].priority == t[id].priority && t[ids[i]].createdAt <= t[id].createdAt))
  {
  }

  // ---------------- the same writes, in place ----------------

  class TaskTable {
    var rows: Table
    var nextId: nat

    ghost predicate Valid()
      reads this
    {
      forall id :: id in rows ==> id < nextId
    }

    constructor ()
      ensures Valid() && rows == map[] && nextId == 0
    {
      rows, nextId := map[], 0;
    }

    method CreateTask(priority: int, now: int) returns (id: nat)
      requires Valid()
      modifies this
      ensures Valid() && id == old(nextId) && nextId == id + 1
      ensures id !in old(rows) && rows == Created(old(rows), id, priority, now)
      ensures rows.Keys == old(rows).Keys + {id}
      ensures forall other :: other in old(rows) ==> rows[other] == old(rows)[other]
      ensures var row := rows[id];
              && row.status.Pending? && row.retryCount == 0 && row.startedAt.None? && row.finishedAt.None?
              && row.priority == priority && row.createdAt == now
    {
      id := nextId;
      rows := rows[id := TaskRow(Pending, priority, now, None, None, 0)];
      nextId := nextId + 1;
    }

    /** Answers the SELECT by repeatedly taking the best unlocked pending row. */
    method SelectPending(locked: set<nat>, limit: nat) returns (ids: seq<nat>)
      ensures IsSelection(rows, locked, limit, ids)
    {
      ids := [];
      var left := set id | id in rows && rows[id].status.Pending? && id !in locked;
      while |ids| < limit && left != {}
        invariant |ids| <= limit
        invariant forall id :: id in left <==>
                    id in rows && rows[id].status.Pending? && id !in locked && id !in ids
        invariant forall i :: 0 <= i < |ids| ==>
                    ids[i] in rows && rows[ids[i]].status.Pending? && ids[i] !in locked
        invariant forall i, j :: 0 <= i < j < |ids| ==>
                    ids[i] != ids[j] && Before(rows[ids[i]], rows[ids[j]])
        invariant forall i, id :: 0 <= i < |ids| && id in left ==> Before(rows[ids[i]], rows[id])
        decreases left
      {
        var best := Best(left);
        ids, left := ids + [best], left - {best};
      }
    }

    method Best(left: set<nat>) returns (best: nat)
      requires left != {} && forall id :: id in left ==> id in rows
      ensures best in left && forall id :: id in left ==> Before(rows[best], rows[id])
    {
      best :| best in left;
      var todo := left - {best};
      while todo != {}
        invariant best in left && todo <= left
        invariant forall id :: id in left && id !in todo ==> Before(rows[best], rows[id])
        decreases todo
      {
        var id :| id in todo;
        if !Before(rows[best], rows[id]) {
          best := id;
        }
        todo := todo - {id};
      }
    }

    method FetchPendingTasks(locked: set<nat>, limit: nat, now: int) returns (ids: seq<nat>)
      requires Valid()
      modifies this`rows
      ensures Valid()
      ensures IsSelection(old(rows), locked, limit, ids)
      ensures rows == Claimed(old(rows), ids, now)
    {
      ids := SelectPending(locked, limit);
      rows := map id | id in rows ::
        if id in ids then rows[id].(status := Running, startedAt := Some(now)) else rows[id];
    }

    method MarkTaskDone(id: nat, now: int)
      requires Valid()
      modifies this`rows
      ensures Valid() && rows == MarkedDone(old(rows), id, now)
    {
      if id in rows {
        rows := rows[id := rows[id].(status := Done, finishedAt := Some(now))];
      }
    }

    method MarkTaskError(id: nat, now: int, retry: bool)
      requires Valid()
      modifies this`rows
      ensures Valid() && rows == MarkedError(old(rows), id, now, retry)
    {
      if id in rows {
        if retry {
          rows := rows[id := rows[id].(status := Pending, startedAt := None,
                                       retryCount := rows[id].retryCount + 1)];
        } else {
          rows := rows[id := rows[id].(status := Error, finishedAt := Some(now))];
        }
      }
    }

    method RequeueTask(id: nat)
      requires Valid()
      modifies this`rows
      ensures Valid() && rows == Requeued(old(rows), id)
    {
      if id in rows {
        rows := rows[id := rows[id].(status := Pending, startedAt := None)];
      }
    }

    method RecoverStaleTasks(now: int, staleTimeout: int) returns (reset: nat)
      requires Valid()
      modifies this`rows
      ensures Valid() && rows == Recovered(old(rows), now - staleTimeout)
      ensures reset == |set id | id in old(rows) && Stale(old(rows)[id], now - staleTimeout)|
    {
      var cutoff := now - staleTimeout;
      reset := |set id | id in rows && Stale(rows[id], cutoff)|;
      rows := map id | id in rows ::
        if Stale(rows[id], cutoff) then rows[id].(status := Pending, startedAt := None) else rows[id];
    }
  }
}
