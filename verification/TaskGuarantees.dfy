/** What the task protocol guarantees over every run. */
module TaskGuarantees {
  import opened Base
  import opened Tasks
  import opened TaskProtocol

  predicate Terminal(row: TaskRow) {
    row.status.Done? || row.status.Error?
  }

  // ---------------- holders, retries, queue ----------------

  /** Copies in memory, plus one if the task is pending, never exceed one more than its stale resets;
      so a task that was never reset has at most one holder. */
  lemma {:induction false} HolderBound(w: nat, s: State, id: nat)
    requires Reachable(w, s) && id in s.rows
    ensures Copies(s, id, false) + Waiting(s.rows[id]) <= 1 + At(s.resets, id)
  {
    ReachableInv(w, s);
    assert RowInv(s, id);
  }

  /** Retry decisions use the count read at claim time, so the limit of 3 can be passed, but only
      once per stale reset, and never by more than the 50 + W extra copies memory can hold. */
  lemma {:induction false} RetryBound(w: nat, s: State, id: nat)
    requires Reachable(w, s) && id in s.rows
    ensures s.rows[id].retryCount <= 3 + Min(At(s.resets, id), 50 + w)
  {
    ReachableInv(w, s);
    assert RowInv(s, id);
  }

  /** The poller never blocks on the queue: it is filled to at most 150 of its 500 slots. */
  lemma {:induction false} QueueNeverFull(w: nat, s: State)
    requires Reachable(w, s)
    ensures |s.queue| + |s.hand| <= 150
    ensures s.hand != [] ==> Enabled(s, Put)
  {
    ReachableInv(w, s);
  }

  /** With no reset and no lost copy, a task is unfinished exactly when it is pending or has
      exactly one copy, and never both. */
  lemma {:induction false} Conservation(w: nat, s: State, id: nat)
    requires Reachable(w, s) && id in s.rows
    requires At(s.resets, id) == 0 && At(s.drops, id) == 0
    ensures !Terminal(s.rows[id]) <==> (s.rows[id].status.Pending? || Copies(s, id, false) == 1)
    ensures !(s.rows[id].status.Pending? && Copies(s, id, false) > 0)
  {
    ReachableInv(w, s);
    assert RowInv(s, id);
  }

  predicate Faulty(step: Step) {
    step.Crash? || step.Lose? || step.LoseQueued? || step.Recover?
  }

  lemma {:induction false} FaultFreeStep(s: State, step: Step, id: nat)
    requires Enabled(s, step) && !Faulty(step)
    ensures Apply(s, step).resets == s.resets && Apply(s, step).drops == s.drops
  {
  }

  /** The side condition of Conservation, in terms of the run. */
  lemma {:induction false} FaultFreeRun(s: State, steps: seq<Step>, id: nat)
    requires EnabledAll(s, steps) && forall i :: 0 <= i < |steps| ==> !Faulty(steps[i])
    ensures Exec(s, steps).resets == s.resets && Exec(s, steps).drops == s.drops
    decreases |steps|
  {
    if steps != [] {
      FaultFreeStep(s, steps[0], id);
      FaultFreeRun(Apply(s, steps[0]), steps[1..], id);
    }
  }

  lemma {:induction false} RowsPersist(s: State, steps: seq<Step>, id: nat)
    requires EnabledAll(s, steps) && id in s.rows
    ensures id in Exec(s, steps).rows
    decreases |steps|
  {
    if steps != [] {
      RowsPersist(Apply(s, steps[0]), steps[1..], id);
    }
  }

  lemma {:induction false} ResetStep(s: State, step: Step, id: nat)
    requires Inv(s) && Enabled(s, step) && id in s.rows
    ensures id in Apply(s, step).rows
    ensures At(Apply(s, step).resets, id) >= At(s.resets, id) && Apply(s, step).now >= s.now
  {
  }

  lemma {:induction false} ResetsGrow(s: State, steps: seq<Step>, id: nat)
    requires Inv(s) && EnabledAll(s, steps) && id in s.rows
    ensures At(Exec(s, steps).resets, id) >= At(s.resets, id)
    ensures Exec(s, steps).now >= s.now
    decreases |steps|
  {
    if steps != [] {
      StepKeepsInv(s, steps[0]);
      ResetStep(s, steps[0], id);
      ResetsGrow(Apply(s, steps[0]), steps[1..], id);
    }
  }

  // ---------------- abandoned tasks come back ----------------

  /** A step that consumes no copy of a task changes its row only by claiming or resetting it. */
  lemma {:induction false} RowUntouched(s: State, step: Step, id: nat)
    requires Inv(s) && Enabled(s, step) && id in s.rows && !s.rows[id].status.Pending?
    requires Copies(s, id, false) == 0
    requires step.Recover? ==> !Stale(s.rows[id], s.now - step.staleTimeout)
    ensures id in Apply(s, step).rows && Apply(s, step).rows[id] == s.rows[id]
    ensures Copies(Apply(s, step), id, false) == 0
  {
    CopiesAfter(s, step, id, false);
    if FreesWorker(step) {
      HeldByNone(s.workers, step.w, id);
    }
    OtherRowKept(s, step, id);
  }

  lemma {:induction false} HeldByNone(ws: seq<Option<Copy>>, w: nat, id: nat)
    requires w < |ws| && ws[w].Some? && CountHeld(ws, id, false) == 0
    ensures ws[w].value.id != id
  {
    if w > 0 {
      HeldByNone(ws[1..], w - 1, id);
    } else {
      assert One(ws[0], id, false) == 0;
    }
  }

  /** Only a claim, a reset and a write by a holder touch a row. */
  lemma {:induction false} OtherRowKept(s: State, step: Step, id: nat)
    requires Inv(s) && Enabled(s, step) && id in s.rows && !s.rows[id].status.Pending?
    requires step.Recover? ==> !Stale(s.rows[id], s.now - step.staleTimeout)
    requires FreesWorker(step) ==> s.workers[step.w].value.id != id
    ensures id in Apply(s, step).rows && Apply(s, step).rows[id] == s.rows[id]
  {
  }

  lemma {:induction false} OrphanStep(s: State, step: Step, id: nat)
    requires Inv(s) && Enabled(s, step) && id in s.rows
    requires s.rows[id].status.Running? && Copies(s, id, false) == 0
    requires At(Apply(s, step).resets, id) == At(s.resets, id)
    ensures id in Apply(s, step).rows && Apply(s, step).rows[id] == s.rows[id]
    ensures Copies(Apply(s, step), id, false) == 0
  {
    if step.Recover? {
      assert !Stale(s.rows[id], s.now - step.staleTimeout);
    }
    RowUntouched(s, step, id);
  }

  /** A running task nobody holds is touched by nothing but a stale reset. */
  lemma {:induction false} OrphanWaits(s: State, steps: seq<Step>, id: nat)
    requires Inv(s) && EnabledAll(s, steps) && id in s.rows
    requires s.rows[id].status.Running? && Copies(s, id, false) == 0
    requires At(Exec(s, steps).resets, id) == At(s.resets, id)
    ensures id in Exec(s, steps).rows && Exec(s, steps).rows[id] == s.rows[id]
    decreases |steps|
  {
    if steps != [] {
      StepKeepsInv(s, steps[0]);
      ResetStep(s, steps[0], id);
      ResetsGrow(Apply(s, steps[0]), steps[1..], id);
      OrphanStep(s, steps[0], id);
      OrphanWaits(Apply(s, steps[0]), steps[1..], id);
    }
  }

  lemma {:induction false} CrashLeaves(s: State, id: nat)
    requires Inv(s) && id in s.rows
    ensures var s' := Apply(s, Crash);
            && Inv(s') && s'.rows == s.rows && s'.now == s.now && s'.resets == s.resets
            && !s'.checked && s'.hand == [] && s'.queue == [] && |s'.workers| == |s.workers|
            && (forall w :: 0 <= w < |s'.workers| ==> s'.workers[w].None?)
            && Copies(s', id, false) == 0
  {
    StepKeepsInv(s, Crash);
    CopiesAfter(s, Crash, id, false);
  }

  lemma {:induction false} RecoverResets(s: State, staleTimeout: int, id: nat)
    requires Inv(s) && id in s.rows
    ensures var s' := Apply(s, Recover(staleTimeout));
            && id in s'.rows && At(s'.resets, id) >= At(s.resets, id)
            && (Stale(s.rows[id], s.now - staleTimeout) ==>
                  s'.rows[id].status.Pending? && At(s'.resets, id) == At(s.resets, id) + 1)
  {
  }

  /** After a crash, any recovery pass later than the stale cutoff has reset every task that was
      running at the crash: it is pending again now, or an earlier pass already made it so. */
  lemma {:induction false} AbandonedComesBack(w: nat, s: State, steps: seq<Step>, staleTimeout: int, id: nat)
    requires Reachable(w, s) && id in s.rows && s.rows[id].status.Running?
    requires EnabledAll(Apply(s, Crash), steps)
    requires Exec(Apply(s, Crash), steps).now > s.now + staleTimeout
    ensures var before := Exec(Apply(s, Crash), steps);
            var after := Apply(before, Recover(staleTimeout));
            && id in before.rows && id in after.rows
            && At(after.resets, id) > At(s.resets, id)
            && (At(before.resets, id) == At(s.resets, id) ==> after.rows[id].status.Pending?)
  {
    ReachableInv(w, s);
    assert RowInv(s, id);
    CrashLeaves(s, id);
    var crashed := Apply(s, Crash);
    RowsPersist(crashed, steps, id);
    ResetsGrow(crashed, steps, id);
    RunKeepsInv(crashed, steps);
    var before := Exec(crashed, steps);
    RecoverResets(before, staleTimeout, id);
    if At(before.resets, id) == At(s.resets, id) {
      OrphanWaits(crashed, steps, id);
      assert Stale(before.rows[id], before.now - staleTimeout);
    }
  }

  lemma {:induction false} ClockGrows(s: State, steps: seq<Step>)
    requires EnabledAll(s, steps)
    ensures Exec(s, steps).now >= s.now
    decreases |steps|
  {
    if steps != [] {
      ClockGrows(Apply(s, steps[0]), steps[1..]);
    }
  }

  // ---------------- fresh tasks are not reset ----------------

  /** Every start recorded for the task is at `since` or later. */
  ghost predicate StartedSince(s: State, id: nat, since: int) {
    && id in s.rows && id < s.nextId && since <= s.now
    && (s.rows[id].startedAt.Some? ==> s.rows[id].startedAt.value >= since)
  }

  predicate LateRecoveries(steps: seq<Step>, timeout: int) {
    forall i :: 0 <= i < |steps| ==> steps[i].Recover? ==> steps[i].staleTimeout >= timeout
  }

  lemma {:induction false} LateTail(steps: seq<Step>, timeout: int)
    requires LateRecoveries(steps, timeout) && steps != []
    ensures LateRecoveries(steps[1..], timeout) && (steps[0].Recover? ==> steps[0].staleTimeout >= timeout)
  {
  }

  lemma {:induction false} FreshStep(s: State, step: Step, id: nat, since: int, timeout: int)
    requires Enabled(s, step) && StartedSince(s, id, since) && s.now <= since + timeout
    requires step.Recover? ==> step.staleTimeout >= timeout
    ensures StartedSince(Apply(s, step), id, since) && At(Apply(s, step).resets, id) == At(s.resets, id)
  {
  }

  /** No recovery pass resets a task before its timeout has passed since the task was claimed, whatever is
      done with the task meanwhile. */
  lemma {:induction false} FreshIsNotReset(s: State, steps: seq<Step>, id: nat, since: int, timeout: int)
    requires EnabledAll(s, steps) && StartedSince(s, id, since) && LateRecoveries(steps, timeout)
    requires Exec(s, steps).now <= since + timeout
    ensures At(Exec(s, steps).resets, id) == At(s.resets, id)
    decreases |steps|
  {
    if steps != [] {
      var s1 := Apply(s, steps[0]);
      ClockGrows(s1, steps[1..]);
      LateTail(steps, timeout);
      FreshStep(s, steps[0], id, since, timeout);
      FreshIsNotReset(s1, steps[1..], id, since, timeout);
    }
  }

  // ---------------- when is done/error final? ----------------

  lemma {:induction false} UnheldTerminalStays(s: State, steps: seq<Step>, id: nat)
    requires Inv(s) && EnabledAll(s, steps) && id in s.rows
    requires Terminal(s.rows[id]) && Copies(s, id, false) == 0
    ensures id in Exec(s, steps).rows && Exec(s, steps).rows[id] == s.rows[id]
    decreases |steps|
  {
    if steps != [] {
      StepKeepsInv(s, steps[0]);
      RowUntouched(s, steps[0], id);
      UnheldTerminalStays(Apply(s, steps[0]), steps[1..], id);
    }
  }

  lemma {:induction false} FindHolder(ws: seq<Option<Copy>>, id: nat) returns (w: nat)
    requires CountHeld(ws, id, false) > 0
    ensures w < |ws| && ws[w].Some? && ws[w].value.id == id
  {
    if One(ws[0], id, false) == 1 {
      w := 0;
    } else {
      w := FindHolder(ws[1..], id);
      w := w + 1;
    }
  }

  /** As long as a copy survives somewhere in memory, some continuation makes the task pending. */
  lemma {:induction false} Revive(s: State, id: nat) returns (steps: seq<Step>)
    requires Inv(s) && |s.workers| > 0 && id in s.rows && Copies(s, id, false) > 0
    ensures EnabledAll(s, steps) && id in Exec(s, steps).rows && Exec(s, steps).rows[id].status.Pending?
    decreases 4 * |s.hand| + 2 * |s.queue| + if s.workers[0].Some? then 1 else 0
  {
    if CountHeld(s.workers, id, false) > 0 {
      var w := FindHolder(s.workers, id);
      steps := [Requeue(w)];
      assert Exec(s, steps) == Apply(s, Requeue(w)) by {
        assert steps[1..] == [];
      }
      assert EnabledAll(s, steps);
      return;
    }
    if s.workers[0].Some? {
      assert One(s.workers[0], id, false) == 0;
    }
    var step := if s.workers[0].Some? then Lose(0) else if s.queue != [] then Get(0) else Put;
    assert Enabled(s, step);
    StepKeepsInv(s, step);
    CopiesAfter(s, step, id, false);
    var rest := Revive(Apply(s, step), id);
    steps := [step] + rest;
    assert steps[1..] == rest;
  }

  /** A finished task stays finished on every continuation exactly when no copy of it is left. */
  lemma {:induction false} TerminalIsFinal(w: nat, s: State, id: nat)
    requires w > 0 && Reachable(w, s) && id in s.rows && Terminal(s.rows[id])
    ensures (forall steps :: EnabledAll(s, steps) ==>
               id in Exec(s, steps).rows && Exec(s, steps).rows[id] == s.rows[id])
            <==> Copies(s, id, false) == 0
  {
    ReachableInv(w, s);
    if Copies(s, id, false) == 0 {
      forall steps | EnabledAll(s, steps)
        ensures id in Exec(s, steps).rows && Exec(s, steps).rows[id] == s.rows[id]
      {
        UnheldTerminalStays(s, steps, id);
      }
    } else {
      var steps := Revive(s, id);
      assert Exec(s, steps).rows[id] != s.rows[id];
    }
  }

  // ---------------- the limits are met ----------------

  lemma {:induction false} RunConcat(s: State, a: seq<Step>, step: Step)
    requires EnabledAll(s, a) && Enabled(Exec(s, a), step)
    ensures EnabledAll(s, a + [step]) && Exec(s, a + [step]) == Apply(Exec(s, a), step)
    decreases |a|
  {
    if a == [] {
      assert a + [step] == [step] && [step][1..] == [];
      assert Exec(s, [step]) == Exec(Apply(s, step), []);
      assert EnabledAll(Apply(s, step), []);
    } else {
      assert (a + [step])[1..] == a[1..] + [step];
      RunConcat(Apply(s, a[0]), a[1..], step);
    }
  }

  lemma {:induction false} Extend(w: nat, s: State, step: Step) returns (s': State)
    requires Reachable(w, s) && Enabled(s, step)
    ensures s' == Apply(s, step) && Reachable(w, s')
  {
    var steps :| EnabledAll(Init(w), steps) && Exec(Init(w), steps) == s;
    RunConcat(Init(w), steps, step);
    s' := Apply(s, step);
    assert EnabledAll(Init(w), steps + [step]) && Exec(Init(w), steps + [step]) == s';
  }

  /** One task in the table, nothing in the poller's hand, and a copy that may retry in each of the
      first n workers and in each of m queue slots. */
  ghost predicate Solo(w: nat, s: State, n: nat, m: nat) {
    && Reachable(w, s) && s.rows.Keys == {0} && s.hand == [] && !s.checked
    && n <= |s.workers| == w && |s.queue| == m
    && (forall j :: 0 <= j < n ==> Low(s.workers[j]))
    && (forall j :: n <= j < w ==> s.workers[j].None?)
    && (forall j :: 0 <= j < m ==> Low(Some(s.queue[j])))
  }

  predicate Low(c: Option<Copy>) {
    c.Some? && c.value.id == 0 && c.value.retry < MAX_RETRIES
  }

  /** The poller claims the task and queues its copy. */
  lemma {:induction false} Claim(w: nat, s: State, n: nat, m: nat) returns (s': State)
    requires Solo(w, s, n, m) && m <= QUEUE_LOW && s.rows[0].status.Pending? && s.rows[0].retryCount < MAX_RETRIES
    ensures Solo(w, s', n, m + 1) && s'.now == s.now && s'.resets == s.resets
    ensures s'.rows[0] == s.rows[0].(status := Running, startedAt := Some(s.now))
  {
    var s1 := Extend(w, s, CheckQueue);
    var s2 := Extend(w, s1, Fetch({}, [0]));
    assert s2.hand == [Copy(0, s.rows[0].retryCount)] by {
      assert Snapshot(s.rows, [0])[1..] == [];
    }
    assert s2.rows.Keys == {0};
    s' := Extend(w, s2, Put);
  }

  lemma {:induction false} Take(w: nat, s: State, n: nat, m: nat) returns (s': State)
    requires Solo(w, s, n, m) && n < w && m > 0
    ensures Solo(w, s', n + 1, m - 1) && s'.now == s.now && s'.resets == s.resets && s'.rows == s.rows
  {
    s' := Extend(w, s, Get(n));
    assert Low(Some(s.queue[0]));
    forall j | 0 <= j < m - 1
      ensures Low(Some(s'.queue[j]))
    {
      assert s'.queue[j] == s.queue[j + 1];
    }
  }

  /** The task goes stale under its newest copy. */
  lemma {:induction false} GoStale(w: nat, s: State, n: nat, m: nat) returns (s': State)
    requires Solo(w, s, n, m) && s.rows[0].status.Running? && s.rows[0].startedAt == Some(s.now)
    ensures Solo(w, s', n, m) && At(s'.resets, 0) == At(s.resets, 0) + 1
    ensures s'.rows[0] == s.rows[0].(status := Pending, startedAt := None)
  {
    var s1 := Extend(w, s, Tick(11));
    s' := Extend(w, s1, Recover(10));
    assert s'.rows.Keys == {0};
  }

  /** Worker n - 1 meets an unclassified exception. */
  lemma {:induction false} Retry(w: nat, s: State, n: nat, m: nat) returns (s': State)
    requires Solo(w, s, n, m) && n > 0
    ensures Solo(w, s', n - 1, m) && s'.resets == s.resets
    ensures s'.rows[0].status.Pending? && s'.rows[0].retryCount == s.rows[0].retryCount + 1
  {
    assert Low(s.workers[n - 1]);
    s' := Extend(w, s, RetryOrFail(n - 1));
    assert s'.rows.Keys == {0};
  }

  lemma {:induction false} FreshTask(w: nat) returns (s: State)
    ensures Solo(w, s, 0, 0) && s.rows[0].status.Pending? && s.rows[0].retryCount == 0 && At(s.resets, 0) == 0
  {
    assert EnabledAll(Init(w), []) && Exec(Init(w), []) == Init(w);
    s := Extend(w, Init(w), Create(0));
  }

  /** k times in a row the task is claimed and goes stale; the copies fill idle workers first. */
  lemma {:induction false} PileUp(w: nat, s: State, n: nat, m: nat, k: nat) returns (s': State, n': nat, m': nat)
    requires Solo(w, s, n, m) && (m == 0 || n == w) && n + m + k <= w + QUEUE_LOW
    requires s.rows[0].status.Pending? && s.rows[0].retryCount < MAX_RETRIES
    ensures Solo(w, s', n', m') && n' + m' == n + m + k && m' <= QUEUE_LOW
    ensures s'.rows[0].status.Pending? && s'.rows[0].retryCount == s.rows[0].retryCount
    ensures At(s'.resets, 0) == At(s.resets, 0) + k
    decreases k
  {
    if k == 0 {
      return s, n, m;
    }
    s' := Claim(w, s, n, m);
    n', m' := n, m + 1;
    if n < w {
      s' := Take(w, s', n, 1);
      n', m' := n + 1, 0;
    }
    s' := GoStale(w, s', n', m');
    s', n', m' := PileUp(w, s', n', m', k - 1);
  }

  /** Every copy ends in a retry, whatever the row says meanwhile. */
  lemma {:induction false} RetryAll(w: nat, s: State, n: nat, m: nat) returns (s': State)
    requires w > 0 && Solo(w, s, n, m)
    ensures Solo(w, s', 0, 0) && s'.resets == s.resets && s'.rows[0].retryCount == s.rows[0].retryCount + n + m
    decreases 2 * m + n
  {
    if n > 0 {
      s' := Retry(w, s, n, m);
      s' := RetryAll(w, s', n - 1, m);
    } else if m > 0 {
      s' := Take(w, s, 0, m);
      s' := RetryAll(w, s', 1, m - 1);
    } else {
      s' := s;
    }
  }

  lemma {:induction false} ClaimAndRetry(w: nat, s: State) returns (s': State)
    requires w > 0 && Solo(w, s, 0, 0) && s.rows[0].status.Pending? && s.rows[0].retryCount < MAX_RETRIES
    ensures Solo(w, s', 0, 0) && s'.rows[0].status.Pending? && s'.resets == s.resets
    ensures s'.rows[0].retryCount == s.rows[0].retryCount + 1
  {
    s' := Claim(w, s, 0, 0);
    s' := Take(w, s', 0, 1);
    s' := Retry(w, s', 1, 0);
  }

  /** RetryBound is exact: for every pool and every number of resets r up to 50 + W, some run resets
      the task r times and ends with 3 + r retries. */
  lemma {:induction false} RetryBoundIsTight(w: nat, r: nat) returns (s: State)
    requires w > 0 && r <= 50 + w
    ensures Reachable(w, s) && 0 in s.rows
    ensures At(s.resets, 0) == r && s.rows[0].retryCount == 3 + r
  {
    s := FreshTask(w);
    s := ClaimAndRetry(w, s);
    s := ClaimAndRetry(w, s);
    var n, m;
    s, n, m := PileUp(w, s, 0, 0, r);
    s := Claim(w, s, n, m);
    s := RetryAll(w, s, n, m + 1);
  }

  /** Done is not absorbing: with one stale reset, a finished task can be pending again. */
  lemma {:induction false} DoneIsNotAbsorbing() returns (done: State, steps: seq<Step>)
    ensures Reachable(1, done) && 0 in done.rows && done.rows[0].status.Done?
    ensures At(done.resets, 0) == 1
    ensures EnabledAll(done, steps)
    ensures 0 in Exec(done, steps).rows && Exec(done, steps).rows[0].status.Pending?
  {
    var s := FreshTask(1);
    s := Claim(1, s, 0, 0);
    s := GoStale(1, s, 0, 1);
    s := Claim(1, s, 0, 1);
    s := Take(1, s, 0, 2);
    done := Extend(1, s, Finish(0));
    ReachableInv(1, done);
    assert Low(Some(done.queue[0]));
    assert Copies(done, 0, false) > 0;
    steps := Revive(done, 0);
  }
}
