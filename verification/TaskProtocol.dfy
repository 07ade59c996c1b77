/** The task lifecycle as a transition system: one poller, W workers holding in-memory copies of
    rows, a recovery loop, crashes and lost copies, interleaved in any order. */
module TaskProtocol {
  import opened Base
  import opened Tasks

  const QUEUE_SIZE: nat := 500
  const QUEUE_LOW: nat := 50
  const FETCH_LIMIT: nat := 100
  const MAX_RETRIES: nat := 3

  /** A row object kept in memory; its retry_count is the one read when it was claimed. */
  datatype Copy = Copy(id: nat, retry: nat)

  datatype State = State(
    now: int,
    nextId: nat,
    rows: Table,
    checked: bool,              // the poller has passed its queue-size test
    hand: seq<Copy>,            // rows the poller fetched and has not queued yet
    queue: seq<Copy>,
    workers: seq<Option<Copy>>,
    resets: Counters,           // history: stale resets per task
    drops: Counters)            // history: copies lost per task

  datatype Step =
    | Create(priority: int)
    | CheckQueue
    | Fetch(locked: set<nat>, ids: seq<nat>)
    | Put
    | Get(w: nat)
    | Finish(w: nat)            // mark_task_done
    | Requeue(w: nat)           // requeue_task
    | Fail(w: nat)              // mark_task_error without retry
    | RetryOrFail(w: nat)       // mark_task_error, retry decided on the copy
    | Lose(w: nat)              // the write raised: no row changes, the copy is gone
    | LoseQueued                // a cancelled queue.get took the head
    | Recover(staleTimeout: int)
    | Crash
    | Tick(dt: nat)

  // ---------------- counting copies ----------------

  predicate Hit(c: Copy, id: nat, low: bool) {
    c.id == id && (low ==> c.retry < MAX_RETRIES)
  }

  /** Copies of task `id` in cs; with `low`, only those still allowed to retry. */
  function Count(cs: seq<Copy>, id: nat, low: bool): nat {
    if cs == [] then 0 else (if Hit(cs[0], id, low) then 1 else 0) + Count(cs[1..], id, low)
  }

  function One(c: Option<Copy>, id: nat, low: bool): nat {
    if c.Some? && Hit(c.value, id, low) then 1 else 0
  }

  function CountHeld(ws: seq<Option<Copy>>, id: nat, low: bool): nat {
    if ws == [] then 0 else One(ws[0], id, low) + CountHeld(ws[1..], id, low)
  }

  function Copies(s: State, id: nat, low: bool): nat {
    Count(s.hand, id, low) + Count(s.queue, id, low) + CountHeld(s.workers, id, low)
  }

  function Snapshot(t: Table, ids: seq<nat>): (cs: seq<Copy>)
    requires forall id :: id in ids ==> id in t
    ensures |cs| == |ids|
  {
    if ids == [] then [] else [Copy(ids[0], t[ids[0]].retryCount)] + Snapshot(t, ids[1..])
  }

  function Idle(w: nat): seq<Option<Copy>> {
    seq(w, _ => None)
  }

  // ---------------- transitions ----------------

  predicate Holds(s: State, w: nat) {
    w < |s.workers| && s.workers[w].Some?
  }

  predicate Enabled(s: State, step: Step) {
    match step
    case CheckQueue => !s.checked && s.hand == [] && |s.queue| <= QUEUE_LOW
    case Fetch(locked, ids) => s.checked && IsSelection(s.rows, locked, FETCH_LIMIT, ids)
    case Put => s.hand != [] && |s.queue| < QUEUE_SIZE
    case Get(w) => w < |s.workers| && s.workers[w].None? && s.queue != []
    case Finish(w) => Holds(s, w)
    case Requeue(w) => Holds(s, w)
    case Fail(w) => Holds(s, w)
    case RetryOrFail(w) => Holds(s, w)
    case Lose(w) => Holds(s, w)
    case LoseQueued => s.queue != []
    case _ => true
  }

  function Release(s: State, w: nat): State
    requires w < |s.workers|
  {
    s.(workers := s.workers[w := None])
  }

  function Dropped(s: State, id: nat): Counters {
    s.drops[id := At(s.drops, id) + 1]
  }

  function ResetsAfter(s: State, cutoff: int): Counters {
    map id | id in s.rows :: At(s.resets, id) + if Stale(s.rows[id], cutoff) then 1 else 0
  }

  function Apply(s: State, step: Step): State
    requires Enabled(s, step)
  {
    match step
    case Create(priority) =>
      s.(rows := Created(s.rows, s.nextId, priority, s.now), nextId := s.nextId + 1)
    case CheckQueue => s.(checked := true)
    case Fetch(locked, ids) =>
      s.(rows := Claimed(s.rows, ids, s.now), hand := Snapshot(s.rows, ids), checked := false)
    case Put => s.(hand := s.hand[1..], queue := s.queue + [s.hand[0]])
    case Get(w) => s.(queue := s.queue[1..], workers := s.workers[w := Some(s.queue[0])])
    case Finish(w) => Release(s, w).(rows := MarkedDone(s.rows, s.workers[w].value.id, s.now))
    case Requeue(w) => Release(s, w).(rows := Requeued(s.rows, s.workers[w].value.id))
    case Fail(w) => Release(s, w).(rows := MarkedError(s.rows, s.workers[w].value.id, s.now, false))
    case RetryOrFail(w) =>
      var c := s.workers[w].value;
      Release(s, w).(rows := MarkedError(s.rows, c.id, s.now, c.retry < MAX_RETRIES))
    case Lose(w) => Release(s, w).(drops := Dropped(s, s.workers[w].value.id))
    case LoseQueued => s.(queue := s.queue[1..], drops := Dropped(s, s.queue[0].id))
    case Recover(staleTimeout) =>
      s.(rows := Recovered(s.rows, s.now - staleTimeout),
         resets := ResetsAfter(s, s.now - staleTimeout))
    case Crash =>
      s.(checked := false, hand := [], queue := [], workers := Idle(|s.workers|),
         drops := map id | id in s.rows :: At(s.drops, id) + Copies(s, id, false))
    case Tick(dt) => s.(now := s.now + dt)
  }

  predicate EnabledAll(s: State, steps: seq<Step>)
    decreases |steps|
  {
    steps == [] || (Enabled(s, steps[0]) && EnabledAll(Apply(s, steps[0]), steps[1..]))
  }

  function Exec(s: State, steps: seq<Step>): State
    requires EnabledAll(s, steps)
    decreases |steps|
  {
    if steps == [] then s else Exec(Apply(s, steps[0]), steps[1..])
  }

  function Init(w: nat): State {
    State(0, 0, map[], false, [], [], Idle(w), map[], map[])
  }

  ghost predicate Reachable(w: nat, s: State) {
    exists steps :: EnabledAll(Init(w), steps) && Exec(Init(w), steps) == s
  }

  // ---------------- the invariant ----------------

  function Waiting(row: TaskRow): nat {
    if row.status.Pending? then 1 else 0
  }

  function Active(row: TaskRow): nat {
    if row.status.Running? then 1 else 0
  }

  /** What holds of one row with `held` copies in memory, `low` of them still allowed to retry. */
  ghost predicate RowOk(row: TaskRow, held: nat, low: nat, resets: nat, drops: nat, now: int, capacity: nat) {
    && held + Waiting(row) <= 1 + resets
    && (row.retryCount >= MAX_RETRIES ==>
          row.retryCount - MAX_RETRIES + low <= resets
          && row.retryCount - MAX_RETRIES + low < capacity)
    && (row.status.Running? ==> row.startedAt.Some? && row.startedAt.value <= now)
    && (row.status.Pending? ==> row.startedAt.None?)
    && (resets == 0 ==> held + drops == Active(row))
  }

  ghost predicate RowInv(s: State, id: nat)
    requires id in s.rows
  {
    RowOk(s.rows[id], Copies(s, id, false), Copies(s, id, true),
          At(s.resets, id), At(s.drops, id), s.now, Capacity(|s.workers|))
  }

  /** The most copies of one task that can be in memory at once: each poller cycle fetches a task at
      most once, on a queue of at most 50. */
  function Capacity(w: nat): nat {
    QUEUE_LOW + 1 + w
  }

  /** Copies of a task that no worker holds yet. */
  function Outside(s: State, id: nat): nat {
    Count(s.hand, id, false) + Count(s.queue, id, false)
  }

  ghost predicate Inv(s: State) {
    && (forall id :: id in s.rows ==> id < s.nextId)
    && (forall id :: id !in s.rows ==>
          Copies(s, id, false) == 0 && id !in s.resets && id !in s.drops)
    && |s.hand| + |s.queue| <= QUEUE_LOW + FETCH_LIMIT
    && (s.checked ==> s.hand == [] && |s.queue| <= QUEUE_LOW)
    && (forall id :: id in s.rows ==> Outside(s, id) <= QUEUE_LOW + 1)
    && (forall id :: id in s.rows ==> RowInv(s, id))
  }

  // ---------------- counting lemmas ----------------

  lemma {:induction false} CountAppend(a: seq<Copy>, c: Copy, id: nat, low: bool)
    ensures Count(a + [c], id, low) == Count(a, id, low) + if Hit(c, id, low) then 1 else 0
  {
    if a == [] {
      assert a + [c] == [c];
      assert [c][1..] == [];
    } else {
      assert (a + [c])[1..] == a[1..] + [c];
      CountAppend(a[1..], c, id, low);
    }
  }

  lemma {:induction false} CountHeldUpdate(ws: seq<Option<Copy>>, w: nat, x: Option<Copy>, id: nat, low: bool)
    requires w < |ws|
    ensures CountHeld(ws[w := x], id, low) ==
            CountHeld(ws, id, low) - One(ws[w], id, low) + One(x, id, low)
  {
    if w == 0 {
      assert ws[w := x][1..] == ws[1..];
    } else {
      assert ws[w := x][1..] == ws[1..][w - 1 := x];
      CountHeldUpdate(ws[1..], w - 1, x, id, low);
    }
  }

  lemma {:induction false} CountHeldIdle(w: nat, id: nat, low: bool)
    ensures CountHeld(Idle(w), id, low) == 0
  {
    if w > 0 {
      assert Idle(w)[1..] == Idle(w - 1);
      CountHeldIdle(w - 1, id, low);
    }
  }

  lemma {:induction false} CountSnapshot(t: Table, ids: seq<nat>, id: nat, low: bool)
    requires forall i :: i in ids ==> i in t
    requires forall i, j :: 0 <= i < j < |ids| ==> ids[i] != ids[j]
    ensures Count(Snapshot(t, ids), id, low) ==
            if id in ids && (low ==> t[id].retryCount < MAX_RETRIES) then 1 else 0
  {
    if ids != [] {
      assert Snapshot(t, ids)[1..] == Snapshot(t, ids[1..]);
      CountSnapshot(t, ids[1..], id, low);
      assert id in ids <==> id == ids[0] || id in ids[1..];
    }
  }

  lemma {:induction false} CountBounds(cs: seq<Copy>, id: nat)
    ensures Count(cs, id, true) <= Count(cs, id, false) <= |cs|
  {
    if cs != [] {
      CountBounds(cs[1..], id);
    }
  }

  lemma {:induction false} CountHeldBounds(ws: seq<Option<Copy>>, id: nat)
    ensures CountHeld(ws, id, true) <= CountHeld(ws, id, false) <= |ws|
  {
    if ws != [] {
      CountHeldBounds(ws[1..], id);
    }
  }

  lemma {:induction false} CopiesBounds(s: State, id: nat)
    ensures Copies(s, id, true) <= Copies(s, id, false) <= Outside(s, id) + |s.workers|
  {
    CountBounds(s.hand, id);
    CountBounds(s.queue, id);
    CountHeldBounds(s.workers, id);
  }

  /** The copy a step takes out of memory, if any. */
  function Consumed(s: State, step: Step): Option<Copy>
    requires Enabled(s, step)
  {
    match step
    case Finish(w) => s.workers[w]
    case Requeue(w) => s.workers[w]
    case Fail(w) => s.workers[w]
    case RetryOrFail(w) => s.workers[w]
    case Lose(w) => s.workers[w]
    case LoseQueued => Some(s.queue[0])
    case _ => None
  }

  predicate FreesWorker(step: Step) {
    step.Finish? || step.Requeue? || step.Fail? || step.RetryOrFail? || step.Lose?
  }

  lemma {:induction false} CopiesAfterRelease(s: State, step: Step, id: nat, low: bool)
    requires Enabled(s, step) && FreesWorker(step)
    ensures Copies(Apply(s, step), id, low) == Copies(s, id, low) - One(s.workers[step.w], id, low)
  {
    CountHeldUpdate(s.workers, step.w, None, id, low);
    assert Apply(s, step).workers == s.workers[step.w := None];
  }

  lemma {:induction false} CopiesAfterFetch(s: State, step: Step, id: nat, low: bool)
    requires Enabled(s, step) && step.Fetch? && s.hand == []
    ensures Copies(Apply(s, step), id, low) == Copies(s, id, low) +
            if id in step.ids && (low ==> s.rows[id].retryCount < MAX_RETRIES) then 1 else 0
  {
    CountSnapshot(s.rows, step.ids, id, low);
  }

  lemma {:induction false} CopiesAfterMove(s: State, step: Step, id: nat, low: bool)
    requires Enabled(s, step) && (step.Put? || step.Get? || step.LoseQueued?)
    ensures Copies(Apply(s, step), id, low) == Copies(s, id, low) - One(Consumed(s, step), id, low)
  {
    match step
    case Put => CountAppend(s.queue, s.hand[0], id, low);
    case Get(w) => CountHeldUpdate(s.workers, w, Some(s.queue[0]), id, low);
    case LoseQueued =>
  }

  /** How each step moves the number of copies of a task. */
  lemma {:induction false} CopiesAfter(s: State, step: Step, id: nat, low: bool)
    requires Enabled(s, step) && (step.Fetch? ==> s.hand == [])
    ensures Copies(Apply(s, step), id, low) ==
            if step.Crash? then 0
            else if step.Fetch? then
              Copies(s, id, low) +
              if id in step.ids && (low ==> s.rows[id].retryCount < MAX_RETRIES) then 1 else 0
            else
              Copies(s, id, low) - One(Consumed(s, step), id, low)
  {
    if FreesWorker(step) {
      CopiesAfterRelease(s, step, id, low);
    } else if step.Fetch? {
      CopiesAfterFetch(s, step, id, low);
    } else if step.Put? || step.Get? || step.LoseQueued? {
      CopiesAfterMove(s, step, id, low);
    } else if step.Crash? {
      CountHeldIdle(|s.workers|, id, low);
    }
  }

  // ---------------- preservation ----------------

  lemma {:induction false} InitInv(w: nat)
    ensures Inv(Init(w))
  {
    forall id: nat ensures Copies(Init(w), id, false) == 0 {
      CountHeldIdle(w, id, false);
    }
  }

  /** Steps that write no row. */
  lemma {:induction false} RowStepQuiet(s: State, step: Step, id: nat)
    requires Inv(s) && Enabled(s, step) && id in s.rows && id in Apply(s, step).rows
    requires step.CheckQueue? || step.Put? || step.Get? || step.Lose? || step.LoseQueued? ||
             step.Crash? || step.Tick? || step.Create?
    ensures RowInv(Apply(s, step), id)
  {
    CopiesAfter(s, step, id, false);
    CopiesAfter(s, step, id, true);
    CopiesBounds(s, id);
    assert RowInv(s, id);
  }

  lemma {:induction false} RowStepFetch(s: State, step: Step, id: nat)
    requires Inv(s) && Enabled(s, step) && step.Fetch? && id in s.rows
    ensures RowInv(Apply(s, step), id)
  {
    CopiesAfter(s, step, id, false);
    CopiesAfter(s, step, id, true);
    assert RowInv(s, id);
  }

  lemma {:induction false} RowStepRecover(s: State, step: Step, id: nat)
    requires Inv(s) && Enabled(s, step) && step.Recover? && id in s.rows
    ensures RowInv(Apply(s, step), id)
  {
    CopiesAfter(s, step, id, false);
    CopiesAfter(s, step, id, true);
    assert RowInv(s, id);
  }

  predicate Writes(step: Step) {
    step.Finish? || step.Requeue? || step.Fail? || step.RetryOrFail?
  }

  /** Writes of another task. */
  lemma {:induction false} RowStepOther(s: State, step: Step, id: nat)
    requires Inv(s) && Enabled(s, step) && id in s.rows
    requires Writes(step) && s.workers[step.w].value.id != id
    ensures RowInv(Apply(s, step), id)
  {
    CopiesAfterRelease(s, step, id, false);
    CopiesAfterRelease(s, step, id, true);
    assert RowInv(s, id);
    assert Apply(s, step).rows[id] == s.rows[id];
  }

  /** A write by a holder of the task, as arithmetic on the row. */
  lemma {:induction false} RowOkWrite(row: TaskRow, c: Copy, step: Step, held: nat, low: nat, resets: nat, drops: nat,
      now: int,
      capacity: nat)
    requires Writes(step) && RowOk(row, held, low, resets, drops, now, capacity)
    requires low <= held <= capacity && held >= 1 && (c.retry < MAX_RETRIES ==> low >= 1)
    requires low - (if c.retry < MAX_RETRIES then 1 else 0) <= held - 1
    ensures var row' := match step
              case Finish(_) => row.(status := Done, finishedAt := Some(now))
              case Requeue(_) => row.(status := Pending, startedAt := None)
              case Fail(_) => row.(status := Error, finishedAt := Some(now))
              case _ => if c.retry < MAX_RETRIES
                        then row.(status := Pending, startedAt := None, retryCount := row.retryCount + 1)
                        else row.(status := Error, finishedAt := Some(now));
            RowOk(row', held - 1, low - (if c.retry < MAX_RETRIES then 1 else 0), resets, drops, now, capacity)
  {
  }

  lemma {:induction false} RowStepWrite(s: State, step: Step, id: nat)
    requires Inv(s) && Enabled(s, step) && id in s.rows
    requires Writes(step) && s.workers[step.w].value.id == id
    ensures RowInv(Apply(s, step), id)
  {
    var s' := Apply(s, step);
    CopiesAfterRelease(s, step, id, false);
    CopiesAfterRelease(s, step, id, true);
    CopiesBounds(s, id);
    CopiesBounds(s', id);
    assert RowInv(s, id);
    RowOkWrite(s.rows[id], s.workers[step.w].value, step, Copies(s, id, false), Copies(s, id, true),
               At(s.resets, id), At(s.drops, id), s.now, Capacity(|s.workers|));
  }

  lemma {:induction false} RowStep(s: State, step: Step, id: nat)
    requires Inv(s) && Enabled(s, step) && id in s.rows
    ensures id in Apply(s, step).rows && RowInv(Apply(s, step), id)
  {
    if Writes(step) {
      if s.workers[step.w].value.id == id {
        RowStepWrite(s, step, id);
      } else {
        RowStepOther(s, step, id);
      }
    } else if step.Fetch? {
      RowStepFetch(s, step, id);
    } else if step.Recover? {
      RowStepRecover(s, step, id);
    } else {
      RowStepQuiet(s, step, id);
    }
  }

  lemma {:induction false} StepKeepsOutside(s: State, step: Step, id: nat)
    requires Inv(s) && Enabled(s, step)
    ensures Outside(Apply(s, step), id) <= QUEUE_LOW + 1
  {
    assert Outside(s, id) <= QUEUE_LOW + 1 by {
      if id !in s.rows {
        assert Copies(s, id, false) == 0;
      }
    }
    match step
    case Fetch(_, ids) =>
      CountSnapshot(s.rows, ids, id, false);
      CountBounds(s.queue, id);
    case Put => CountAppend(s.queue, s.hand[0], id, false);
    case _ =>
  }

  lemma {:induction false} StepKeepsInv(s: State, step: Step)
    requires Inv(s) && Enabled(s, step)
    ensures Inv(Apply(s, step)) && |Apply(s, step).workers| == |s.workers|
  {
    var s' := Apply(s, step);
    forall id: nat | id !in s'.rows
      ensures Copies(s', id, false) == 0 && id !in s'.resets && id !in s'.drops
    {
      CopiesAfter(s, step, id, false);
    }
    forall id | id in s'.rows
      ensures Outside(s', id) <= QUEUE_LOW + 1
    {
      StepKeepsOutside(s, step, id);
    }
    forall id | id in s'.rows
      ensures RowInv(s', id)
    {
      if id in s.rows {
        RowStep(s, step, id);
      } else {
        assert step.Create? && id == s.nextId;
        CopiesAfter(s, step, id, false);
        CopiesAfter(s, step, id, true);
      }
    }
  }

  lemma {:induction false} RunKeepsInv(s: State, steps: seq<Step>)
    requires Inv(s) && EnabledAll(s, steps)
    ensures Inv(Exec(s, steps)) && |Exec(s, steps).workers| == |s.workers|
    decreases |steps|
  {
    if steps != [] {
      StepKeepsInv(s, steps[0]);
      RunKeepsInv(Apply(s, steps[0]), steps[1..]);
    }
  }

  lemma {:induction false} ReachableInv(w: nat, s: State)
    requires Reachable(w, s)
    ensures Inv(s) && |s.workers| == w
  {
    var steps :| EnabledAll(Init(w), steps) && Exec(Init(w), steps) == s;
    InitInv(w);
    RunKeepsInv(Init(w), steps);
  }
}
