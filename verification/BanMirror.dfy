/** Bans live twice: in the limiter and in account_states. Over any run of bans, recoveries,
    connections, deaths and restarts, memory never outlasts the table. */
module BanMirror {
  import opened Base
  import opened RateLimiter
  import opened Accounts

  datatype State = State(now: real, pool: seq<Account>, db: StateTable)

  datatype Step =
    | Tick(dt: real)
    | MarkBanned(i: nat, seconds: int)
    | MarkBannedLost(i: nat, seconds: int)    // the table write raised after the limiter was marked
    | CheckRecoveries
    | Check(i: nat)                           // is_banned drops a passed deadline
    | Connect(i: nat, ok: bool)               // _connect_one writes a status, whatever it was
    | MarkDead(i: nat)
    | Restart(models: seq<Model>, works: seq<int>)

  predicate Enabled(s: State, step: Step) {
    match step
    case Tick(dt) => dt >= 0.0
    case MarkBanned(i, _) => i < |s.pool|
    case MarkBannedLost(i, _) => i < |s.pool|
    case Check(i) => i < |s.pool|
    case Connect(i, _) => i < |s.pool|
    case MarkDead(i) => i < |s.pool|
    case Restart(models, works) => |works| == |models| && Distinct(models)
    case _ => true
  }

  /** Account ids are primary keys. */
  predicate Distinct(models: seq<Model>) {
    forall i, j :: 0 <= i < j < |models| ==> models[i].id != models[j].id
  }

  function Apply(s: State, step: Step): State
    requires Enabled(s, step)
  {
    match step
    case Tick(dt) => s.(now := s.now + dt)
    case MarkBanned(i, seconds) =>
      s.(pool := s.pool[i := WithBan(s.pool[i], Some(s.now + seconds as real))],
         db := RowBanned(s.db, s.pool[i].id, s.now, seconds))
    case MarkBannedLost(i, seconds) =>
      s.(pool := s.pool[i := WithBan(s.pool[i], Some(s.now + seconds as real))])
    case CheckRecoveries => s.(pool := Lifted(s.pool, s.db, s.now), db := BansExpired(s.db, s.now))
    case Check(i) => s.(pool := s.pool[i := s.pool[i].(rt := AfterBanCheck(s.pool[i].rt, s.now))])
    case Connect(i, ok) =>
      s.(pool := s.pool[i := Connected(s.pool[i], ok)],
         db := RowStatus(s.db, s.pool[i].id, if ok then Idle else Disconnected))
    case MarkDead(i) =>
      s.(pool := s.pool[i := s.pool[i].(connected := false)], db := RowStatus(s.db, s.pool[i].id, DeadStatus))
    case Restart(models, works) =>
      var db := LoadedTable(s.db, models, s.now);
      RowsAdded(BansExpired(DayReset(s.db, Slot(s.now, DAY)), s.now), models, Slot(s.now, DAY));
      s.(pool := LoadedPool(models, db, works), db := db)
  }

  predicate EnabledAll(s: State, steps: seq<Step>)
    decreases |steps|
  {
    steps == [] || (Enabled(s, steps[0]) && EnabledAll(Apply(s, steps[0]), steps[1..]))
  }

  function Exec(s: State, steps: seq<Step>): State
    requires EnabledAll(s, steps)
    decreases |steps|
  {
    if steps == [] then s else Exec(Apply(s, steps[0]), steps[1..])
  }

  /** The deadline in memory is backed by one in the table that is no earlier. */
  predicate Backed(s: State, a: Account) {
    && a.id in s.db
    && (a.rt.bannedUntil.Some? ==>
          s.db[a.id].banUntil.Some? && a.rt.bannedUntil.value <= s.db[a.id].banUntil.value)
  }

  ghost predicate Mirror(s: State) {
    && (forall i :: 0 <= i < |s.pool| ==> Backed(s, s.pool[i]))
    && (forall i, j :: 0 <= i < j < |s.pool| ==> s.pool[i].id != s.pool[j].id)
  }

  lemma {:induction false} RestartMirrors(s: State, step: Step)
    requires step.Restart? && Enabled(s, step)
    ensures Mirror(Apply(s, step))
  {
    RowsAdded(BansExpired(DayReset(s.db, Slot(s.now, DAY)), s.now), step.models, Slot(s.now, DAY));
  }

  lemma {:induction false} RecoveryKeepsMirror(s: State)
    requires Mirror(s)
    ensures Mirror(Apply(s, CheckRecoveries))
  {
    var s' := Apply(s, CheckRecoveries);
    forall i | 0 <= i < |s'.pool|
      ensures Backed(s', s'.pool[i])
    {
      assert Backed(s, s.pool[i]);
    }
  }

  lemma {:induction false} StepKeepsMirror(s: State, step: Step)
    requires Mirror(s) && Enabled(s, step) && !step.MarkBannedLost?
    ensures Mirror(Apply(s, step))
  {
    if step.Restart? {
      RestartMirrors(s, step);
    } else if step.CheckRecoveries? {
      RecoveryKeepsMirror(s);
    } else {
      var s' := Apply(s, step);
      forall j | 0 <= j < |s'.pool|
        ensures Backed(s', s'.pool[j]) && s'.pool[j].id == s.pool[j].id
      {
        assert Backed(s, s.pool[j]);
      }
    }
  }

  predicate NoLostWrite(steps: seq<Step>) {
    forall j :: 0 <= j < |steps| ==> !steps[j].MarkBannedLost?
  }

  lemma {:induction false} MirrorHolds(s: State, steps: seq<Step>)
    requires Mirror(s) && EnabledAll(s, steps) && NoLostWrite(steps)
    ensures Mirror(Exec(s, steps))
    decreases |steps|
  {
    if steps != [] {
      StepKeepsMirror(s, steps[0]);
      MirrorHolds(Apply(s, steps[0]), steps[1..]);
    }
  }

  /** After any run that starts from any table and lost no ban write, a recovery pass lifts a ban
      in memory only when its deadline has passed. */
  lemma {:induction false} RecoveryIsNeverEarly(db: StateTable, now: real, steps: seq<Step>, i: nat)
    requires var s0 := State(now, [], db);
             && EnabledAll(s0, steps)
             && i < |Exec(s0, steps).pool| && Exec(s0, steps).pool[i].rt.bannedUntil.Some?
    requires NoLostWrite(steps)
    ensures var s := Exec(State(now, [], db), steps);
            && (Apply(s, CheckRecoveries).pool[i].rt.bannedUntil.None? ==> s.pool[i].rt.bannedUntil.value < s.now)
            && s.pool[i].id in s.db && s.db[s.pool[i].id].banUntil.Some?
            && s.pool[i].rt.bannedUntil.value <= s.db[s.pool[i].id].banUntil.value
  {
    var s0 := State(now, [], db);
    MirrorHolds(s0, steps);
    assert Backed(Exec(s0, steps), Exec(s0, steps).pool[i]);
  }

  /** Losing the table write of a ban keeps the mirror exactly when the table already holds a
      deadline at least as late. */
  lemma {:induction false} LostWriteKeepsMirrorIff(s: State, i: nat, seconds: int)
    requires Mirror(s) && i < |s.pool|
    ensures Mirror(Apply(s, MarkBannedLost(i, seconds))) <==>
            var until := s.db[s.pool[i].id].banUntil;
            until.Some? && s.now + seconds as real <= until.value
  {
    var s' := Apply(s, MarkBannedLost(i, seconds));
    assert Backed(s, s.pool[i]);
    assert s'.pool[i] == WithBan(s.pool[i], Some(s.now + seconds as real));
    if Backed(s', s'.pool[i]) {
      forall j | 0 <= j < |s'.pool|
        ensures Backed(s', s'.pool[j])
      {
        assert Backed(s, s.pool[j]);
      }
    }
  }

  // ---------------- a ban lasts, across restarts, and then ends ----------------

  /** No step bans the account with this id again, and none loses a write. */
  predicate NoOtherBan(s: State, steps: seq<Step>, id: nat)
    requires EnabledAll(s, steps)
    decreases |steps|
  {
    steps == []
    || (&& !steps[0].MarkBannedLost?
        && (steps[0].MarkBanned? ==> s.pool[steps[0].i].id != id)
        && NoOtherBan(Apply(s, steps[0]), steps[1..], id))
  }

  /** The table and every account with this id hold the deadline. */
  ghost predicate KeptOut(s: State, id: nat, deadline: real) {
    && id in s.db && s.db[id].banUntil == Some(deadline)
    && forall i :: 0 <= i < |s.pool| && s.pool[i].id == id ==> s.pool[i].rt.bannedUntil == Some(deadline)
  }

  /** A load gives every account the deadline of its row, no more and no less. */
  lemma {:induction false} LoadedBans(s: State, step: Step)
    requires step.Restart? && Enabled(s, step)
    ensures var s' := Apply(s, step);
            forall i :: 0 <= i < |s'.pool| ==>
              s'.pool[i].id in s'.db && s'.pool[i].rt.bannedUntil == s'.db[s'.pool[i].id].banUntil
    ensures forall id :: id in s.db ==>
              && id in Apply(s, step).db
              && (s.db[id].banUntil.Some? && s.now <= s.db[id].banUntil.value ==>
                    Apply(s, step).db[id].banUntil == s.db[id].banUntil)
  {
    RowsAdded(BansExpired(DayReset(s.db, Slot(s.now, DAY)), s.now), step.models, Slot(s.now, DAY));
  }

  lemma {:induction false} StepKeepsOut(s: State, step: Step, id: nat, deadline: real)
    requires KeptOut(s, id, deadline) && Enabled(s, step) && s.now < deadline
    requires !step.MarkBannedLost? && (step.MarkBanned? ==> s.pool[step.i].id != id)
    ensures KeptOut(Apply(s, step), id, deadline)
  {
    if step.Restart? {
      LoadedBans(s, step);
    }
  }

  lemma {:induction false} RunKeepsOut(s: State, steps: seq<Step>, id: nat, deadline: real)
    requires KeptOut(s, id, deadline) && EnabledAll(s, steps) && NoOtherBan(s, steps, id)
    requires Exec(s, steps).now < deadline
    ensures KeptOut(Exec(s, steps), id, deadline)
    decreases |steps|
  {
    if steps != [] {
      ClockGrows(Apply(s, steps[0]), steps[1..]);
      StepKeepsOut(s, steps[0], id, deadline);
      RunKeepsOut(Apply(s, steps[0]), steps[1..], id, deadline);
    }
  }

  lemma {:induction false} ClockGrows(s: State, steps: seq<Step>)
    requires EnabledAll(s, steps)
    ensures Exec(s, steps).now >= s.now
    decreases |steps|
  {
    if steps != [] {
      ClockGrows(Apply(s, steps[0]), steps[1..]);
    }
  }

  /** A ban of n seconds keeps the account out for n seconds, in whatever process: through recovery passes,
      connections and restarts, every pool entry with its id is banned until then, and the limiter answers
      so. */
  lemma {:induction false} BanLasts(s: State, i: nat, seconds: int, steps: seq<Step>, j: nat, cfg: Config, p: Picks)
    requires Mirror(s) && i < |s.pool| && EnabledAll(Apply(s, MarkBanned(i, seconds)), steps)
    requires NoOtherBan(Apply(s, MarkBanned(i, seconds)), steps, s.pool[i].id)
    requires var last := Exec(Apply(s, MarkBanned(i, seconds)), steps);
             last.now < s.now + seconds as real && j < |last.pool| && last.pool[j].id == s.pool[i].id
    ensures var last := Exec(Apply(s, MarkBanned(i, seconds)), steps);
            && last.pool[j].rt.bannedUntil == Some(s.now + seconds as real)
            && CanContinue(cfg, last.pool[j].rt, last.now, p).1.Banned?
  {
    var id, deadline := s.pool[i].id, s.now + seconds as real;
    var s1 := Apply(s, MarkBanned(i, seconds));
    assert Backed(s, s.pool[i]);
    RunKeepsOut(s1, steps, id, deadline);
    BannedIsBanned(cfg, Exec(s1, steps).pool[j].rt, Exec(s1, steps).now, p);
  }

  lemma {:induction false} BannedIsBanned(cfg: Config, rt: Runtime, now: real, p: Picks)
    requires BanActive(rt, now)
    ensures CanContinue(cfg, rt, now, p).1.Banned?
  {
  }

  /** And then it ends: the first recovery pass after the deadline makes the row idle and frees the limiter,
      as long as the row still says banned. */
  lemma {:induction false} BanEnds(s: State, i: nat)
    requires Mirror(s) && i < |s.pool|
    requires var row := s.db[s.pool[i].id];
             row.status.BannedStatus? && row.banUntil.Some? && row.banUntil.value < s.now
    ensures var s' := Apply(s, CheckRecoveries);
            && s'.pool[i].rt.bannedUntil.None? && s'.pool[i] == s.pool[i].(rt := s'.pool[i].rt)
            && s'.pool[i].rt == s.pool[i].rt.(bannedUntil := None)
            && s'.db[s.pool[i].id] == s.db[s.pool[i].id].(status := Idle, banUntil := None)
  {
    assert Backed(s, s.pool[i]);
  }

  /** A recovery pass touches nothing else: rows not banned, or banned to this moment or later, stay. */
  lemma {:induction false} RecoverySpares(s: State, id: nat)
    requires id in s.db
    requires var row := s.db[id];
             !row.status.BannedStatus? || row.banUntil.None? || s.now <= row.banUntil.value
    ensures var s' := Apply(s, CheckRecoveries);
            && id in s'.db && s'.db[id] == s.db[id] && |s'.pool| == |s.pool|
            && forall i :: 0 <= i < |s.pool| && s.pool[i].id == id ==> s'.pool[i] == s.pool[i]
  {
  }

  /** What a ban writes: the status, the deadline and one more ban. */
  lemma {:induction false} BanWrites(s: State, i: nat, seconds: int)
    requires Mirror(s) && i < |s.pool|
    ensures var s' := Apply(s, MarkBanned(i, seconds));
            var id := s.pool[i].id;
            && s'.db.Keys == s.db.Keys
            && s'.db[id].status.BannedStatus? && s'.db[id].totalBans == s.db[id].totalBans + 1
            && s'.db[id].banUntil == s'.pool[i].rt.bannedUntil == Some(s.now + seconds as real)
            && (forall other :: other in s.db && other != id ==> s'.db[other] == s.db[other])
            && (forall j :: 0 <= j < |s.pool| && j != i ==> s'.pool[j] == s.pool[j])
  {
    assert Backed(s, s.pool[i]);
  }

  /** A status write keeps the deadline, so a connection made during a ban leaves the row for the next load;
      but the row no longer says banned, and no recovery pass frees the limiter. */
  lemma {:induction false} ConnectingHidesBan(s: State, i: nat, ok: bool)
    requires Mirror(s) && i < |s.pool|
    ensures var s' := Apply(s, Connect(i, ok));
            var id := s.pool[i].id;
            && s'.db[id] == s.db[id].(status := if ok then Idle else Disconnected)
            && s'.pool[i].connected == (ok || s.pool[i].connected)
            && s'.pool[i].failures == s.pool[i].failures + (if ok then 0 else 1)
            && Apply(s', CheckRecoveries).pool[i].rt == s.pool[i].rt
  {
    assert Backed(s, s.pool[i]);
  }

  /** A dead account is disconnected and its row says so, with its deadline kept; it stays in the pool. */
  lemma {:induction false} DeathWrites(s: State, i: nat)
    requires Mirror(s) && i < |s.pool|
    ensures var s' := Apply(s, MarkDead(i));
            var id := s.pool[i].id;
            && |s'.pool| == |s.pool| && s'.pool[i] == s.pool[i].(connected := false)
            && s'.db.Keys == s.db.Keys && s'.db[id] == s.db[id].(status := DeadStatus)
            && (forall other :: other in s.db && other != id ==> s'.db[other] == s.db[other])
  {
    assert Backed(s, s.pool[i]);
  }

  // ---------------- when a lost write lifts a ban early ----------------

  /** A recovery pass now would lift the ban of account i while it is still active. */
  predicate LiftsEarly(s: State, i: nat) {
    && i < |s.pool| && BanActive(s.pool[i].rt, s.now)
    && Apply(s, CheckRecoveries).pool[i].rt.bannedUntil.None?
  }

  /** A run without a lost write leads to an early lift. */
  predicate LeadsToLift(s: State, steps: seq<Step>, i: nat) {
    NoLostWrite(steps) && EnabledAll(s, steps) && LiftsEarly(Exec(s, steps), i)
  }

  /** The row's own ban runs out before the deadline. */
  predicate EndsBefore(row: StateRow, deadline: real) {
    row.status.BannedStatus? && row.banUntil.Some? && row.banUntil.value < deadline
  }

  /** Every deadline in memory is backed by the table, except account id's, which is at most
      `deadline`; and that one has passed, or the table has no ban that ends before it. */
  ghost predicate Harmless(s: State, id: nat, deadline: real) {
    && (forall i :: 0 <= i < |s.pool| ==> HarmlessAt(s, s.pool[i], id, deadline))
    && (forall i, j :: 0 <= i < j < |s.pool| ==> s.pool[i].id != s.pool[j].id)
  }

  predicate HarmlessAt(s: State, a: Account, id: nat, deadline: real) {
    && a.id in s.db
    && (|| Backed(s, a)
        || (a.id == id && a.rt.bannedUntil.value <= deadline
            && (deadline <= s.now || !EndsBefore(s.db[id], deadline))))
  }

  lemma {:induction false} MirrorIsHarmless(s: State, id: nat, deadline: real)
    requires Mirror(s)
    ensures Harmless(s, id, deadline)
  {
    forall i | 0 <= i < |s.pool|
      ensures HarmlessAt(s, s.pool[i], id, deadline)
    {
      assert Backed(s, s.pool[i]);
    }
  }

  lemma {:induction false} RecoveryIsHarmless(s: State, id: nat, deadline: real)
    requires Harmless(s, id, deadline)
    ensures Harmless(Apply(s, CheckRecoveries), id, deadline)
  {
    var s' := Apply(s, CheckRecoveries);
    forall i | 0 <= i < |s'.pool|
      ensures HarmlessAt(s', s'.pool[i], id, deadline)
    {
      assert HarmlessAt(s, s.pool[i], id, deadline);
    }
  }

  lemma {:induction false} StepIsHarmless(s: State, step: Step, id: nat, deadline: real)
    requires Harmless(s, id, deadline) && Enabled(s, step) && !step.MarkBannedLost?
    ensures Harmless(Apply(s, step), id, deadline)
  {
    if step.Restart? {
      RestartMirrors(s, step);
      MirrorIsHarmless(Apply(s, step), id, deadline);
    } else if step.CheckRecoveries? {
      RecoveryIsHarmless(s, id, deadline);
    } else {
      var s' := Apply(s, step);
      forall j | 0 <= j < |s'.pool|
        ensures HarmlessAt(s', s'.pool[j], id, deadline) && s'.pool[j].id == s.pool[j].id
      {
        assert HarmlessAt(s, s.pool[j], id, deadline);
      }
    }
  }

  lemma {:induction false} RunIsHarmless(s: State, steps: seq<Step>, id: nat, deadline: real)
    requires Harmless(s, id, deadline) && EnabledAll(s, steps)
    requires NoLostWrite(steps)
    ensures Harmless(Exec(s, steps), id, deadline)
    decreases |steps|
  {
    if steps != [] {
      StepIsHarmless(s, steps[0], id, deadline);
      RunIsHarmless(Apply(s, steps[0]), steps[1..], id, deadline);
    }
  }

  lemma {:induction false} HarmlessIsNotEarly(s: State, id: nat, deadline: real, i: nat)
    requires Harmless(s, id, deadline)
    ensures !LiftsEarly(s, i)
  {
    if i < |s.pool| {
      assert HarmlessAt(s, s.pool[i], id, deadline);
    }
  }

  /** Some moment between the row's deadline and the one in memory lifts the ban too early. */
  lemma {:induction false} WaitForLift(s: State, i: nat, seconds: int) returns (dt: real)
    requires Mirror(s) && i < |s.pool| && seconds > 0
    requires EndsBefore(s.db[s.pool[i].id], s.now + seconds as real)
    ensures dt >= 0.0 && LiftsEarly(Apply(Apply(s, MarkBannedLost(i, seconds)), Tick(dt)), i)
  {
    var deadline := s.now + seconds as real;
    var until := s.db[s.pool[i].id].banUntil.value;
    var low := if until >= s.now then until else s.now;
    dt := (low + deadline) / 2.0 - s.now;
    assert low < s.now + dt < deadline;
  }

  /** After a ban whose table write was lost, some run without another lost write leads to an early
      lift of some account if and only if the ban has a length and the table holds an older ban of the
      account that ends before it. */
  lemma {:induction false} LostWriteLiftsEarlyIff(s: State, i: nat, seconds: int)
    requires Mirror(s) && i < |s.pool|
    ensures var s1 := Apply(s, MarkBannedLost(i, seconds));
            (exists steps, j :: LeadsToLift(s1, steps, j))
            <==> seconds > 0 && EndsBefore(s.db[s.pool[i].id], s.now + seconds as real)
  {
    var s1 := Apply(s, MarkBannedLost(i, seconds));
    var id, deadline := s.pool[i].id, s.now + seconds as real;
    assert Backed(s, s.pool[i]);
    if seconds > 0 && EndsBefore(s.db[id], deadline) {
      var dt := WaitForLift(s, i, seconds);
      var steps, s2 := [Tick(dt)], Apply(s1, Tick(dt));
      assert steps[1..] == [] && EnabledAll(s2, []) && Exec(s2, []) == s2;
      assert LeadsToLift(s1, steps, i);
    } else {
      LostIsHarmless(s, i, seconds);
      forall steps, j: nat
        ensures !LeadsToLift(s1, steps, j)
      {
        if NoLostWrite(steps) && EnabledAll(s1, steps) {
          RunIsHarmless(s1, steps, id, deadline);
          HarmlessIsNotEarly(Exec(s1, steps), id, deadline, j);
        }
      }
    }
  }

  lemma {:induction false} LostIsHarmless(s: State, i: nat, seconds: int)
    requires Mirror(s) && i < |s.pool|
    requires seconds <= 0 || !EndsBefore(s.db[s.pool[i].id], s.now + seconds as real)
    ensures Harmless(Apply(s, MarkBannedLost(i, seconds)), s.pool[i].id, s.now + seconds as real)
  {
    var s1 := Apply(s, MarkBannedLost(i, seconds));
    forall j | 0 <= j < |s1.pool|
      ensures HarmlessAt(s1, s1.pool[j], s.pool[i].id, s.now + seconds as real) && s1.pool[j].id == s.pool[j].id
    {
      assert Backed(s, s.pool[j]);
    }
  }

  const LONE: Model := Model(7, Some("scanner"), false)

  /** An account is banned 60 s in both places, then 1000 s in memory only; 61 s later a recovery pass
      lifts the long ban. */
  lemma {:induction false} LostThenLifted(s: State) returns (last: State)
    requires s.now == 0.0 && |s.pool| == 1 && s.pool[0].id == 7 && s.db == map[7 := NewRow(0)]
    ensures EnabledAll(s, [MarkBanned(0, 60), MarkBannedLost(0, 1000), Tick(61.0)])
    ensures last == Exec(s, [MarkBanned(0, 60), MarkBannedLost(0, 1000), Tick(61.0)]) && LiftsEarly(last, 0)
  {
    var s1 := Apply(s, MarkBanned(0, 60));
    var s2 := Apply(s1, MarkBannedLost(0, 1000));
    last := Apply(s2, Tick(61.0));
    assert last.pool[0].rt.bannedUntil == Some(1000.0) && last.db[7].banUntil == Some(60.0);
    OneStep(s2, Tick(61.0), []);
    OneStep(s1, MarkBannedLost(0, 1000), [Tick(61.0)]);
    OneStep(s, MarkBanned(0, 60), [MarkBannedLost(0, 1000), Tick(61.0)]);
    assert [Tick(61.0)] == [Tick(61.0)] + [];
    assert [MarkBannedLost(0, 1000), Tick(61.0)] == [MarkBannedLost(0, 1000)] + [Tick(61.0)];
    assert [MarkBanned(0, 60), MarkBannedLost(0, 1000), Tick(61.0)]
        == [MarkBanned(0, 60)] + [MarkBannedLost(0, 1000), Tick(61.0)];
  }

  /** The failing case is reachable: it happens to an account loaded from an empty table. */
  lemma {:induction false} LostWriteLiftsEarly()
    ensures var s := State(0.0, [], map[]);
            var steps := [Restart([LONE], [100])] + [MarkBanned(0, 60), MarkBannedLost(0, 1000), Tick(61.0)];
            EnabledAll(s, steps) && LiftsEarly(Exec(s, steps), 0)
  {
    var s := State(0.0, [], map[]);
    LoadOne(s);
    var last := LostThenLifted(Apply(s, Restart([LONE], [100])));
    OneStep(s, Restart([LONE], [100]), [MarkBanned(0, 60), MarkBannedLost(0, 1000), Tick(61.0)]);
  }

  lemma {:induction false} OneStep(s: State, step: Step, rest: seq<Step>)
    requires Enabled(s, step) && EnabledAll(Apply(s, step), rest)
    ensures EnabledAll(s, [step] + rest) && Exec(s, [step] + rest) == Exec(Apply(s, step), rest)
  {
    assert ([step] + rest)[1..] == rest;
  }

  lemma {:induction false} LoadOne(s: State)
    requires s == State(0.0, [], map[])
    ensures var s' := Apply(s, Restart([LONE], [100]));
            s'.now == 0.0 && |s'.pool| == 1 && s'.pool[0].id == 7 && s'.db == map[7 := NewRow(0)]
  {
    assert Slot(0.0, DAY) == 0;
    assert BansExpired(DayReset(map[], 0), 0.0) == map[];
    assert [LONE][..0] == [];
    assert WithRows(map[], [LONE], 0) == WithRow(WithRows(map[], [], 0), 7, 0);
  }
}
