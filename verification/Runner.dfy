/** The runner's actors, one method per stretch of code that runs without interleaving.
    Each method is proved to be one step of the task protocol. */
module Runner {
  import opened Base
  import opened Tasks
  import opened TaskProtocol
  import opened Errors

  datatype TaskType = ScanMessages | ScanMembers | Discover | ResolveLink | UnknownType

  /** How the body of a dispatched task ends, the group lookup included: two rows with one username make
      the lookup raise. */
  datatype Outcome = Finished | Raised(exc: Exc)

  /** The write that ends a dispatch, for a task whose account lookup, group lookup and work went
      as given. */
  function Verdicts(kind: TaskType, hasAccount: bool, hasGroup: bool, outcome: Outcome, threshold: int): Verdict {
    if !hasAccount then PutBack
    else if kind.UnknownType? then Failed
    else if outcome.Raised? then VerdictFor(outcome.exc, threshold)
    else if (kind.ScanMessages? || kind.ScanMembers?) && !hasGroup then Failed
    else Completed
  }

  datatype ScanStatus = PendingScan | Scanning | Scanned | PrivateGroup | FailedGroup | Duplicate

  /** scan_status of the target_groups rows. */
  type Groups = map<nat, ScanStatus>

  /** An update of one row; a missing or zero id writes nothing. */
  function Marked(groups: Groups, id: Option<nat>, status: ScanStatus): Groups {
    if id.Some? && id.value != 0 && id.value in groups then groups[id.value := status] else groups
  }

  /** The group row an exception marks: the one named in the task's payload. */
  function GroupsAfterError(groups: Groups, payload: Option<nat>, exc: Exc, threshold: int): Groups {
    match Classify(exc, threshold)
    case GroupPrivate => Marked(groups, payload, PrivateGroup)
    case GroupInvalid => Marked(groups, payload, FailedGroup)
    case _ => groups
  }

  /** The group row a dispatch marks: a finished history scan marks the row it loaded. */
  function GroupsAfter(groups: Groups, kind: TaskType, hasAccount: bool, group: Option<nat>, payload: Option<nat>,
      outcome: Outcome, threshold: int): Groups
  {
    if !hasAccount || kind.UnknownType? then groups
    else if outcome.Raised? then GroupsAfterError(groups, payload, outcome.exc, threshold)
    else if kind.ScanMessages? then Marked(groups, group, Scanned)
    else groups
  }

  function StepFor(verdict: Verdict, w: nat): Step {
    match verdict
    case Completed => Finish(w)
    case PutBack => Requeue(w)
    case Failed => Fail(w)
    case RetriedOrFailed => RetryOrFail(w)
  }

  class Runner {
    const table: TaskTable
    var groups: Groups
    var clock: int
    var checked: bool
    var hand: seq<Copy>
    var queue: seq<Copy>
    var workers: seq<Option<Copy>>
    ghost var resets: Counters
    ghost var drops: Counters

    ghost function Abs(): State
      reads this, table
    {
      State(clock, table.nextId, table.rows, checked, hand, queue, workers, resets, drops)
    }

    ghost predicate Valid()
      reads this, table
    {
      table.Valid() && Inv(Abs())
    }

    constructor (poolSize: nat)
      ensures Valid() && fresh(table) && Abs() == Init(poolSize)
    {
      table := new TaskTable();
      clock, checked, hand, queue, groups := 0, false, [], [], map[];
      workers := seq(poolSize, _ => None);
      resets, drops := map[], map[];
      new;
      InitInv(poolSize);
    }

    method Submit(priority: int) returns (id: nat)
      requires Valid()
      modifies this, table
      ensures Valid() && Abs() == Apply(old(Abs()), Create(priority)) && id == old(table.nextId)
    {
      ghost var s := Abs();
      StepKeepsInv(s, Create(priority));
      id := table.CreateTask(priority, clock);
      assert Abs() == Apply(s, Create(priority));
    }

    /** First half of a poller cycle: skip it while the queue is long. */
    method PollCheck() returns (proceed: bool)
      requires Valid() && !checked && hand == []
      modifies this
      ensures Valid() && proceed == (|old(queue)| <= 50)
      ensures Abs() == if proceed then Apply(old(Abs()), CheckQueue) else old(Abs())
    {
      proceed := !(|queue| > 50);
      if proceed {
        StepKeepsInv(Abs(), CheckQueue);
        checked := true;
      }
    }

    method PollFetch(locked: set<nat>) returns (ids: seq<nat>)
      requires Valid() && checked
      modifies this, table
      ensures Valid() && IsSelection(old(table.rows), locked, 100, ids)
      ensures Abs() == Apply(old(Abs()), Fetch(locked, ids))
    {
      ghost var s := Abs();
      ids := table.FetchPendingTasks(locked, 100, clock);
      hand := Copies(ids, table.rows);
      SnapshotUnchanged(s.rows, ids, clock);
      checked := false;
      StepKeepsInv(s, Fetch(locked, ids));
    }

    /** The row objects the session hands out: the update bumps status and started_at only. */
    static function Copies(ids: seq<nat>, rows: Table): (cs: seq<Copy>)
      requires forall id :: id in ids ==> id in rows
    {
      seq(|ids|, i requires 0 <= i < |ids| => Copy(ids[i], rows[ids[i]].retryCount))
    }

    static lemma {:induction false} SnapshotUnchanged(t: Table, ids: seq<nat>, now: int)
      requires forall id :: id in ids ==> id in t
      ensures Copies(ids, Claimed(t, ids, now)) == Snapshot(t, ids)
    {
      forall i | 0 <= i < |ids|
        ensures Snapshot(t, ids)[i] == Copy(ids[i], t[ids[i]].retryCount)
      {
        SnapshotAt(t, ids, i);
      }
    }

    static lemma {:induction false} SnapshotAt(t: Table, ids: seq<nat>, i: nat)
      requires i < |ids| && forall id :: id in ids ==> id in t
      ensures Snapshot(t, ids)[i] == Copy(ids[i], t[ids[i]].retryCount)
    {
      if i > 0 {
        SnapshotAt(t, ids[1..], i - 1);
      }
    }

    /** `await queue.put`: never blocks, by the poller's own bookkeeping. */
    method PollPut()
      requires Valid() && hand != []
      modifies this
      ensures Valid() && |queue| <= 500 && Abs() == Apply(old(Abs()), Put)
    {
      StepKeepsInv(Abs(), Put);
      queue := queue + [hand[0]];
      hand := hand[1..];
    }

    method WorkerGet(w: nat)
      requires Valid() && w < |workers| && workers[w].None? && queue != []
      modifies this
      ensures Valid() && Abs() == Apply(old(Abs()), Get(w))
    {
      StepKeepsInv(Abs(), Get(w));
      workers := workers[w := Some(queue[0])];
      queue := queue[1..];
    }

    method CompleteTask(w: nat)
      requires Valid() && w < |workers| && workers[w].Some?
      modifies this`workers, table`rows
      ensures Valid() && Abs() == Apply(old(Abs()), Finish(w))
    {
      StepKeepsInv(Abs(), Finish(w));
      table.MarkTaskDone(workers[w].value.id, clock);
      workers := workers[w := None];
    }

    method PutTaskBack(w: nat)
      requires Valid() && w < |workers| && workers[w].Some?
      modifies this`workers, table`rows
      ensures Valid() && Abs() == Apply(old(Abs()), Requeue(w))
    {
      StepKeepsInv(Abs(), Requeue(w));
      table.RequeueTask(workers[w].value.id);
      workers := workers[w := None];
    }

    method FailTask(w: nat)
      requires Valid() && w < |workers| && workers[w].Some?
      modifies this`workers, table`rows
      ensures Valid() && Abs() == Apply(old(Abs()), Fail(w))
    {
      StepKeepsInv(Abs(), Fail(w));
      table.MarkTaskError(workers[w].value.id, clock, false);
      workers := workers[w := None];
    }

    method RetryOrFailTask(w: nat)
      requires Valid() && w < |workers| && workers[w].Some?
      modifies this`workers, table`rows
      ensures Valid() && Abs() == Apply(old(Abs()), RetryOrFail(w))
    {
      StepKeepsInv(Abs(), RetryOrFail(w));
      var task := workers[w].value;
      var retry := task.retry < 3;
      table.MarkTaskError(task.id, clock, retry);
      workers := workers[w := None];
    }

    method MarkGroup(id: Option<nat>, status: ScanStatus)
      modifies this`groups
      ensures groups == Marked(old(groups), id, status)
    {
      if id.Some? && id.value != 0 && id.value in groups {
        groups := groups[id.value := status];
      }
    }

    method EndTask(w: nat, verdict: Verdict)
      requires Valid() && w < |workers| && workers[w].Some?
      modifies this`workers, table`rows
      ensures Valid() && Abs() == Apply(old(Abs()), StepFor(verdict, w))
    {
      match verdict
      case Completed => CompleteTask(w);
      case PutBack => PutTaskBack(w);
      case Failed => FailTask(w);
      case RetriedOrFailed => RetryOrFailTask(w);
    }

    method HandleException(w: nat, payload: Option<nat>, exc: Exc, threshold: int) returns (action: AccountAction)
      requires Valid() && w < |workers| && workers[w].Some?
      modifies this`workers, this`groups, table`rows
      ensures Valid() && action == ActionFor(exc, threshold)
      ensures Abs() == Apply(old(Abs()), StepFor(VerdictFor(exc, threshold), w))
      ensures groups == GroupsAfterError(old(groups), payload, exc, threshold)
    {
      var kind := Classify(exc, threshold);
      action := NoAction;
      if kind == FloodShort {
        action := HandleFlood(FloodSeconds(exc));
        EndTask(w, PutBack);
      } else if kind == FloodLong {
        action := MarkBanned(FloodSeconds(exc));
        EndTask(w, PutBack);
      } else if kind == PeerFlooded {
        action := MarkBanned(86400);
        EndTask(w, PutBack);
      } else if kind == AccountDead {
        action := MarkDead;
        EndTask(w, PutBack);
      } else if kind == GroupPrivate {
        MarkGroup(payload, PrivateGroup);
        EndTask(w, Completed);
      } else if kind == GroupInvalid {
        MarkGroup(payload, FailedGroup);
        EndTask(w, Failed);
      } else {
        EndTask(w, RetriedOrFailed);
      }
    }

    /** One dispatched task, from the account lookup to the write that ends it: `group` is the row the task
        names, if it is found, and `payload` the group id in the task's payload. */
    method Dispatch(w: nat, kind: TaskType, hasAccount: bool, group: Option<nat>, payload: Option<nat>,
        outcome: Outcome, threshold: int) returns (action: AccountAction)
      requires Valid() && w < |workers| && workers[w].Some?
      modifies this`workers, this`groups, table`rows
      ensures Valid()
      ensures Abs() == Apply(old(Abs()), StepFor(Verdicts(kind, hasAccount, group.Some?, outcome, threshold), w))
      ensures groups == GroupsAfter(old(groups), kind, hasAccount, group, payload, outcome, threshold)
      ensures action == if hasAccount && kind != UnknownType && outcome.Raised? then ActionFor(outcome.exc, threshold)
                        else NoAction
      ensures action.HandleFlood? ==> action.seconds < threshold
    {
      action := NoAction;
      if !hasAccount {
        PutTaskBack(w);
      } else if kind == UnknownType {
        FailTask(w);
      } else if outcome.Raised? {
        action := HandleException(w, payload, outcome.exc, threshold);
        if action.HandleFlood? {
          DeliveredFloodsAreShort(outcome.exc, threshold);
        }
      } else if (kind == ScanMessages || kind == ScanMembers) && group.None? {
        FailTask(w);
      } else {
        if kind == ScanMessages {
          MarkGroup(group, Scanned);
        }
        CompleteTask(w);
      }
    }

    static lemma {:induction false} RecoverStep(s: State, staleTimeout: int)
      ensures Apply(s, Recover(staleTimeout)) ==
              s.(rows := Recovered(s.rows, s.now - staleTimeout), resets := ResetsAfter(s, s.now - staleTimeout))
    {
    }

    method RecoveryPass(staleTimeout: int) returns (reset: nat)
      requires Valid()
      modifies this, table
      ensures Valid() && Abs() == Apply(old(Abs()), Recover(staleTimeout))
    {
      ghost var s := Abs();
      reset := table.RecoverStaleTasks(clock, staleTimeout);
      resets := ResetsAfter(s, s.now - staleTimeout);
      assert Abs() == Apply(s, Recover(staleTimeout)) by {
        RecoverStep(s, staleTimeout);
      }
      StepKeepsInv(s, Recover(staleTimeout));
    }

    /** Everything in memory goes; the table stays. */
    method CrashAndRestart()
      requires Valid()
      modifies this
      ensures Valid() && Abs() == Apply(old(Abs()), Crash)
    {
      ghost var s := Abs();
      checked, hand, queue := false, [], [];
      workers := seq(|workers|, _ => None);
      drops := Apply(s, Crash).drops;
      StepKeepsInv(s, Crash);
    }

    method Advance(dt: nat)
      requires Valid()
      modifies this`clock
      ensures Valid() && Abs() == Apply(old(Abs()), Tick(dt))
    {
      ghost var s := Abs();
      clock := clock + dt;
      StepKeepsInv(s, Tick(dt));
    }
  }
}
