/** What one account's limiter guarantees over time: rests, flood pauses, bans, spacing, backoff. */
module Pacing {
  import opened Base
  import opened RateLimiter
  import opened LimiterRuns

  lemma {:induction false} ClockGrows(su: Setup, s: World, steps: seq<Step>)
    requires EnabledAll(su, s, steps)
    ensures Exec(su, s, steps).now >= s.now
    decreases |steps|
  {
    if steps != [] {
      ClockGrows(su, Apply(su, s, steps[0]), steps[1..]);
    }
  }

  // ---------------- rests ----------------

  predicate RestsUntil(s: World, x: real) {
    s.rt.restUntil.Some? && s.rt.restUntil.value >= x
  }

  lemma {:induction false} RestStep(su: Setup, s: World, step: Step, x: real)
    requires Enabled(su, s, step) && s.now < x <= s.now + HOUR && RestsUntil(s, x)
    ensures RestsUntil(Apply(su, s, step), x) && Apply(su, s, step).now >= s.now
  {
  }

  /** A rest of at most an hour cannot be cut short by anything the account does or suffers. */
  lemma {:induction false} RestHolds(su: Setup, s: World, steps: seq<Step>, x: real)
    requires EnabledAll(su, s, steps) && x <= s.now + HOUR && RestsUntil(s, x)
    requires Exec(su, s, steps).now < x
    ensures RestsUntil(Exec(su, s, steps), x)
    decreases |steps|
  {
    ClockGrows(su, s, steps);
    if steps != [] {
      RestStep(su, s, steps[0], x);
      RestHolds(su, Apply(su, s, steps[0]), steps[1..], x);
    }
  }

  /** No grant comes within min(shortest rest, 60 minutes) of a start_rest. */
  lemma {:induction false} NoGrantAfterStartRest(su: Setup, s: World, p: Picks, steps: seq<Step>, q: Picks)
    requires Enabled(su, s, Ask(p)) && CanContinue(su.cfg, s.rt, s.now, p).1.RestCycle?
    requires EnabledAll(su, Apply(su, s, Ask(p)), steps)
    requires var now := Exec(su, Apply(su, s, Ask(p)), steps).now;
             now < s.now + su.cfg.restMinutes.0 as real * 60.0 && now < s.now + 3600.0
    ensures !Grants(su, Exec(su, Apply(su, s, Ask(p)), steps), q)
  {
    var s1 := Apply(su, s, Ask(p));
    var x := if su.cfg.restMinutes.0 <= 60 then s.now + Minutes(su.cfg.restMinutes.0) else s.now + HOUR;
    assert RestsUntil(s1, x);
    RestHolds(su, s1, steps, x);
  }

  /** A short flood that brings floods_hour to the maximum stops every grant for 60 minutes. */
  lemma {:induction false} FloodPause(su: Setup, s: World, seconds: int, steps: seq<Step>, q: Picks)
    requires Enabled(su, s, Flood(seconds))
    requires RollHour(su.cfg, s.rt, s.now).floodsHour + 1 >= su.cfg.maxFloods
    requires EnabledAll(su, Apply(su, s, Flood(seconds)), steps)
    requires Exec(su, Apply(su, s, Flood(seconds)), steps).now < s.now + 3600.0
    ensures !Grants(su, Exec(su, Apply(su, s, Flood(seconds)), steps), q)
  {
    var s1 := Apply(su, s, Flood(seconds));
    RestHolds(su, s1, steps, s.now + Minutes(60));
  }

  // ---------------- the work/rest cycle ----------------

  ghost predicate WorkInv(su: Setup, s: World) {
    && (s.rt.workStartedAt.Some? ==> s.rt.workStartedAt.value <= s.now)
    && s.rt.workDuration <= su.cfg.workMinutes.1 * 60
  }

  lemma {:induction false} WorkStep(su: Setup, s: World, step: Step)
    requires WorkInv(su, s) && Enabled(su, s, step)
    ensures WorkInv(su, Apply(su, s, step))
  {
    if step.Ask? || step.Take? {
      AskWorks(su.cfg, s.rt, s.now, step.p);
    }
  }

  /** can_continue leaves the shift alone or ends it. */
  lemma {:induction false} AskWorks(cfg: Config, rt: Runtime, now: real, p: Picks)
    ensures var rt' := CanContinue(cfg, rt, now, p).0;
            && (rt'.workStartedAt.Some? ==> rt'.workStartedAt == rt.workStartedAt)
            && (rt'.workDuration == rt.workDuration || rt'.workDuration == p.work * 60)
            && rt'.lastActionAt == rt.lastActionAt
            && (rt.restUntil.None? && rt'.restUntil.None? ==>
                  rt'.workStartedAt == rt.workStartedAt && rt'.workDuration == rt.workDuration)
  {
  }

  lemma {:induction false} WorkRun(su: Setup, s: World, steps: seq<Step>)
    requires WorkInv(su, s) && EnabledAll(su, s, steps)
    ensures WorkInv(su, Exec(su, s, steps))
    decreases |steps|
  {
    if steps != [] {
      WorkStep(su, s, steps[0]);
      WorkRun(su, Apply(su, s, steps[0]), steps[1..]);
    }
  }

  /** A rest is in force in some state of the run, its ends included. */
  predicate RestInForce(su: Setup, s: World, steps: seq<Step>)
    requires EnabledAll(su, s, steps)
    decreases |steps|
  {
    RestActive(s.rt, s.now) || (steps != [] && RestInForce(su, Apply(su, s, steps[0]), steps[1..]))
  }

  lemma {:induction false} RestBegins(su: Setup, s: World, step: Step)
    requires su.cfg.restMinutes.0 > 0 && Enabled(su, s, step)
    requires s.rt.restUntil.None? && Apply(su, s, step).rt.restUntil.Some?
    ensures RestActive(Apply(su, s, step).rt, Apply(su, s, step).now)
  {
  }

  lemma {:induction false} ShiftKept(su: Setup, s: World, step: Step)
    requires Enabled(su, s, step) && s.rt.restUntil.None? && Apply(su, s, step).rt.restUntil.None?
    requires s.rt.workStartedAt.Some?
    ensures Apply(su, s, step).rt.workStartedAt == s.rt.workStartedAt
    ensures Apply(su, s, step).rt.workDuration == s.rt.workDuration
  {
    if step.Ask? || step.Take? {
      AskWorks(su.cfg, s.rt, s.now, step.p);
    }
  }

  lemma {:induction false} ShiftRun(su: Setup, s: World, steps: seq<Step>)
    requires su.cfg.restMinutes.0 > 0 && EnabledAll(su, s, steps)
    requires s.rt.restUntil.None? && s.rt.workStartedAt.Some? && !RestInForce(su, s, steps)
    ensures Exec(su, s, steps).rt.restUntil.None?
    ensures Exec(su, s, steps).rt.workStartedAt == s.rt.workStartedAt
    ensures Exec(su, s, steps).rt.workDuration == s.rt.workDuration
    decreases |steps|
  {
    if steps != [] {
      var s1 := Apply(su, s, steps[0]);
      assert !RestActive(s1.rt, s1.now);
      if s1.rt.restUntil.Some? {
        RestBegins(su, s, steps[0]);
      }
      ShiftKept(su, s, steps[0]);
      ShiftRun(su, s1, steps[1..]);
    }
  }

  /** The run lasts the longest shift and ends where the account is granted. */
  ghost predicate GrantedAfterShift(su: Setup, s: World, steps: seq<Step>, p: Picks) {
    && EnabledAll(su, s, steps)
    && Exec(su, s, steps).now >= s.now + su.cfg.workMinutes.1 as real * 60.0
    && Grants(su, Exec(su, s, steps), p)
  }

  /** If a throttle starts at w while no passed rest is left uncleared, and the account is granted at w
      plus the longest shift or later, a rest was in force at some moment in between. */
  lemma {:induction false} DutyCycle(su: Setup, s0: World, s: World, op: Operation, pick: real, jitter: real,
      steps: seq<Step>, p: Picks)
    requires Reaches(su, s0, s) && Enabled(su, s, EnterThrottle(op, pick, jitter))
    requires su.cfg.restMinutes.0 > 0 && (s.rt.restUntil.None? || RestActive(s.rt, s.now))
    requires GrantedAfterShift(su, Apply(su, s, EnterThrottle(op, pick, jitter)), steps, p)
    ensures RestInForce(su, Apply(su, s, EnterThrottle(op, pick, jitter)), steps)
  {
    var before :| EnabledAll(su, s0, before) && Exec(su, s0, before) == s;
    WorkRun(su, s0, before);
    var s1 := Apply(su, s, EnterThrottle(op, pick, jitter));
    WorkStep(su, s, EnterThrottle(op, pick, jitter));
    if !RestInForce(su, s1, steps) {
      ShiftRun(su, s1, steps);
      var last := Exec(su, s1, steps);
      FinishedShiftRefuses(su.cfg, last.rt, last.now, p);
    }
  }

  lemma {:induction false} FinishedShiftRefuses(cfg: Config, rt: Runtime, now: real, p: Picks)
    requires rt.restUntil.None? && ShouldRest(rt, now)
    ensures !CanContinue(cfg, rt, now, p).1.Granted?
  {
  }

  /** Both caps leave room and some hour of the day is outside the night pause: without this the
      account is never granted at all. */
  predicate CanWork(cfg: Config, premium: bool) {
    && Cap(cfg.maxGroupsPerDay, premium) > 0 && Cap(cfg.maxGroupsPerHour, premium) > 0
    && exists h :: 0 <= h < 24 && !NightHour(cfg, h)
  }

  lemma {:induction false} GrantMeansWork(su: Setup, s: World, p: Picks)
    requires CapInv(su, s) && Grants(su, s, p)
    ensures CanWork(su.cfg, s.rt.premium)
  {
    AskRolls(su.cfg, s.rt, s.now, p);
    assert !NightHour(su.cfg, HourOfDay(s.now));
  }

  lemma {:induction false} NoWorkNoGrant(su: Setup, s: World, steps: seq<Step>, p: Picks)
    requires CapInv(su, s) && !CanWork(su.cfg, s.rt.premium)
    ensures !GrantedAfterShift(su, s, steps, p)
  {
    if EnabledAll(su, s, steps) {
      RunKeepsCaps(su, s, steps);
      if Grants(su, Exec(su, s, steps), p) {
        GrantMeansWork(su, Exec(su, s, steps), p);
      }
    }
  }

  /** A later day has every hour, past any given moment. */
  lemma {:induction false} LaterHour(x: real, h: int) returns (t: real)
    requires 0 <= h < 24
    ensures t > x && HourOfDay(t) == h && Slot(t, HOUR) > Slot(x, HOUR) && Slot(t, DAY) > Slot(x, DAY)
  {
    var n := Slot(x, DAY) + 1;
    var hours := n * 24 + h;
    t := hours as real * HOUR;
    assert t / HOUR == hours as real;
    assert t / DAY == n as real + h as real / 24.0;
    assert x / DAY < n as real;
    assert x / HOUR == x / DAY * 24.0;
    assert x / HOUR < (n * 24) as real;
  }

  /** Neither ban, night pause nor caps refuse now, the counters being from an earlier slot or zero. */
  predicate Roomy(cfg: Config, rt: Runtime, now: real) {
    && Cap(cfg.maxGroupsPerDay, rt.premium) > 0 && Cap(cfg.maxGroupsPerHour, rt.premium) > 0
    && !InNightPause(cfg, now) && !BanActive(rt, now)
    && (rt.hourSlot == Slot(now, HOUR) ==> rt.groupsHour == 0)
    && (rt.dayDate == Some(Slot(now, DAY)) ==> rt.groupsToday == 0)
  }

  lemma {:induction false} PassedRestGrants(cfg: Config, rt: Runtime, now: real, p: Picks)
    requires Roomy(cfg, rt, now) && rt.restUntil.Some? && !RestActive(rt, now)
    ensures CanContinue(cfg, rt, now, p).1.Granted?
  {
  }

  lemma {:induction false} FinishedShiftRests(cfg: Config, rt: Runtime, now: real, p: Picks)
    requires Roomy(cfg, rt, now) && rt.restUntil.None? && ShouldRest(rt, now)
    ensures var rt' := CanContinue(cfg, rt, now, p).0;
            Roomy(cfg, rt', now) && rt'.restUntil == Some(now + Minutes(p.rest))
  {
    AskRolls(cfg, rt, now, p);
  }

  /** A moment after the longest shift, on a later day, past the ban and awake. */
  lemma {:induction false} RoomyMoment(su: Setup, s: World) returns (dt: real)
    requires CapInv(su, s) && CanWork(su.cfg, s.rt.premium)
    ensures dt >= 0.0 && dt >= Minutes(su.cfg.workMinutes.1) && Roomy(su.cfg, s.rt, s.now + dt)
  {
    var h :| 0 <= h < 24 && !NightHour(su.cfg, h);
    var x := s.now;
    if x < s.now + Minutes(su.cfg.workMinutes.1) {
      x := s.now + Minutes(su.cfg.workMinutes.1);
    }
    if s.rt.bannedUntil.Some? && x < s.rt.bannedUntil.value {
      x := s.rt.bannedUntil.value;
    }
    SlotMonotone(s.now, x, HOUR);
    SlotMonotone(s.now, x, DAY);
    var t := LaterHour(x, h);
    dt := t - s.now;
  }

  /** A passed rest that nobody has cleared ends the shift when it is: then a grant needs no rest. */
  lemma {:induction false} PassedRestEscapes(su: Setup, s: World, p: Picks) returns (steps: seq<Step>)
    requires CapInv(su, s) && CanWork(su.cfg, s.rt.premium)
    requires s.rt.restUntil.Some? && !RestActive(s.rt, s.now)
    ensures GrantedAfterShift(su, s, steps, p) && !RestInForce(su, s, steps)
  {
    var dt := RoomyMoment(su, s);
    steps := [Tick(dt)];
    var s1 := Apply(su, s, Tick(dt));
    assert steps[1..] == [] && EnabledAll(su, s1, []) && Exec(su, s1, []) == s1;
    assert !RestInForce(su, s1, []);
    PassedRestGrants(su.cfg, s1.rt, s1.now, p);
  }

  /** A rest of no length is over when it starts. */
  lemma {:induction false} EmptyRestEscapes(su: Setup, s: World, p: Picks) returns (steps: seq<Step>)
    requires ValidSetup(su) && CapInv(su, s) && WorkInv(su, s) && CanWork(su.cfg, s.rt.premium)
    requires s.rt.restUntil.None? && s.rt.workStartedAt.Some? && su.cfg.restMinutes.0 <= 0
    ensures GrantedAfterShift(su, s, steps, p) && !RestInForce(su, s, steps)
  {
    var dt := RoomyMoment(su, s);
    var q := Picks(su.cfg.workMinutes.0, su.cfg.restMinutes.0);
    var s1 := Apply(su, s, Tick(dt));
    FinishedShiftRests(su.cfg, s1.rt, s1.now, q);
    var s2 := Apply(su, s1, Ask(q));
    PassedRestGrants(su.cfg, s2.rt, s2.now, p);
    steps := [Tick(dt), Ask(q)];
    assert steps[1..] == [Ask(q)] && [Ask(q)][1..] == [];
    assert EnabledAll(su, s2, []) && Exec(su, s2, []) == s2 && !RestInForce(su, s2, []);
    assert EnabledAll(su, s1, [Ask(q)]) && Exec(su, s1, [Ask(q)]) == s2 && !RestInForce(su, s1, [Ask(q)]);
  }

  /** DutyCycle's condition is exact: every grant a shift after the throttle has a rest in force before
      it, if and only if a rest is in force at the throttle, or none is set and rests have a
      length, or the account cannot work at all. */
  lemma {:induction false} DutyCycleIff(su: Setup, s0: World, s: World, op: Operation, pick: real, jitter: real)
    requires ValidSetup(su) && su.workers > 0
    requires Reaches(su, s0, s) && Enabled(su, s, EnterThrottle(op, pick, jitter))
    ensures var s1 := Apply(su, s, EnterThrottle(op, pick, jitter));
            (forall steps, p :: GrantedAfterShift(su, s1, steps, p) ==> RestInForce(su, s1, steps))
            <==> (|| RestActive(s.rt, s.now)
                  || (s.rt.restUntil.None? && su.cfg.restMinutes.0 > 0)
                  || !CanWork(su.cfg, s.rt.premium))
  {
    var step := EnterThrottle(op, pick, jitter);
    var s1 := Apply(su, s, step);
    ThrottleInvariants(su, s0, s, step);
    if !CanWork(su.cfg, s.rt.premium) {
      forall steps, p
        ensures !GrantedAfterShift(su, s1, steps, p)
      {
        NoWorkNoGrant(su, s1, steps, p);
      }
    } else if s.rt.restUntil.Some? && !RestActive(s.rt, s.now) {
      var steps := PassedRestEscapes(su, s1, Picks(0, 0));
    } else if s.rt.restUntil.None? && su.cfg.restMinutes.0 <= 0 {
      var steps := EmptyRestEscapes(su, s1, Picks(0, 0));
    } else if s.rt.restUntil.None? {
      forall steps, p | GrantedAfterShift(su, s1, steps, p)
        ensures RestInForce(su, s1, steps)
      {
        DutyCycle(su, s0, s, op, pick, jitter, steps, p);
      }
    }
  }

  lemma {:induction false} ThrottleInvariants(su: Setup, s0: World, s: World, step: Step)
    requires su.workers > 0 && Reaches(su, s0, s) && step.EnterThrottle? && Enabled(su, s, step)
    ensures var s1 := Apply(su, s, step);
            && CapInv(su, s1) && WorkInv(su, s1) && s1.rt.workStartedAt.Some? && s1.now == s.now
            && s1.rt.restUntil == s.rt.restUntil && s1.rt.premium == s.rt.premium
  {
    var before :| EnabledAll(su, s0, before) && Exec(su, s0, before) == s;
    FreshCaps(su, s0);
    RunKeepsCaps(su, s0, before);
    StepKeepsCaps(su, s, step);
    WorkRun(su, s0, before);
    WorkStep(su, s, step);
  }

  const ONE_FLOOD: Setup :=
    Setup(Config((0.0, 0.0), (0.0, 0.0), (0.0, 0.0), 0.0, 10, 10, 1, 1.0, 1, 300, (100, 100), (30, 30), (0, 0)), 1)

  const STARTED: World :=
    World(0.0, Runtime(false, 0, 0, 0, 0, 0, 0, 0, 0, None, 1.0, None, 6000, None, None, None, None),
          {}, None, [], [])

  /** A scan is granted, a flood sets the 60-minute pause, and the scan outlasts the pause. */
  lemma {:induction false} StaleRest() returns (s: World)
    ensures Reaches(ONE_FLOOD, STARTED, s)
    ensures s.now == 3600.0 && s.rt.restUntil == Some(3600.0) && s.sleeper.None?
    ensures s.rt == STARTED.rt.(groupsToday := s.rt.groupsToday, groupsHour := s.rt.groupsHour,
                                hourSlot := s.rt.hourSlot, floodsHour := s.rt.floodsHour,
                                lastFloodAt := s.rt.lastFloodAt, backoff := s.rt.backoff,
                                restUntil := Some(3600.0), dayDate := s.rt.dayDate)
    ensures s.rt.hourSlot == 0 && s.rt.groupsToday == 0 && s.rt.groupsHour == 0
  {
    var su := ONE_FLOOD;
    assert InRange(100, su.cfg.workMinutes);
    s := STARTED;
    assert EnabledAll(su, s, []) && Exec(su, s, []) == s;
    Extend(su, STARTED, s, Take(0, Picks(100, 30)));
    s := Apply(su, s, Take(0, Picks(100, 30)));
    Extend(su, STARTED, s, Flood(10));
    s := Apply(su, s, Flood(10));
    Extend(su, STARTED, s, Tick(3600.0));
    s := Apply(su, s, Tick(3600.0));
  }

  /** The failing case is reachable: the next throttle begins a shift that the stale deadline ends
      without a rest. */
  lemma {:induction false} StaleRestSkipsRest() returns (s: World, steps: seq<Step>)
    ensures Reaches(ONE_FLOOD, STARTED, s)
    ensures Enabled(ONE_FLOOD, s, EnterThrottle(GroupOp, 0.0, 0.0)) && s.rt.restUntil == Some(s.now)
    ensures var s1 := Apply(ONE_FLOOD, s, EnterThrottle(GroupOp, 0.0, 0.0));
            GrantedAfterShift(ONE_FLOOD, s1, steps, Picks(100, 30)) && !RestInForce(ONE_FLOOD, s1, steps)
  {
    var su := ONE_FLOOD;
    s := StaleRest();
    var s1 := Apply(su, s, EnterThrottle(GroupOp, 0.0, 0.0));
    var s2 := Apply(su, s1, LeaveThrottle);
    var s3 := Apply(su, s2, Tick(7200.0));
    steps := [LeaveThrottle, Tick(7200.0)];
    assert steps[1..] == [Tick(7200.0)] && [Tick(7200.0)][1..] == [];
    assert EnabledAll(su, s3, []) && Exec(su, s3, []) == s3 && !RestInForce(su, s3, []);
    assert EnabledAll(su, s2, steps[1..]) && Exec(su, s2, steps[1..]) == s3 && !RestInForce(su, s2, steps[1..]);
    PassedRestGrants(su.cfg, s3.rt, s3.now, Picks(100, 30));
  }

  // ---------------- spacing ----------------

  /** The least time between two group actions: the low delay, at most 120 seconds. */
  function Spacing(cfg: Config): real {
    var lo := Low(cfg.delayGroups);
    if lo <= 0.0 then 0.0 else if lo <= 120.0 then lo else 120.0
  }

  ghost predicate PaceInv(su: Setup, s: World) {
    && s.rt.backoff >= 1.0
    && (s.rt.lastActionAt.Some? ==> s.rt.lastActionAt.value <= s.now)
    && (s.paced != [] ==> s.rt.lastActionAt.Some? && s.paced[|s.paced| - 1] <= s.rt.lastActionAt.value)
    && (s.sleeper.Some? && s.sleeper.value.op.GroupOp? && s.rt.lastActionAt.Some? ==>
          s.sleeper.value.wakeAt >= s.rt.lastActionAt.value + Spacing(su.cfg))
    && (forall i :: 0 < i < |s.paced| ==> s.paced[i] - s.paced[i - 1] >= Spacing(su.cfg))
  }

  lemma {:induction false} ScaledUp(x: real, k: real)
    requires x >= 0.0 && k >= 1.0
    ensures x * k >= x
  {
    var d := k - 1.0;
    assert x * k == x + x * d;
  }

  lemma {:induction false} LongDelay(cfg: Config, rt: Runtime, pick: real)
    requires ValidDelay(cfg, GroupOp, pick) && rt.backoff >= 1.0
    ensures Spacing(cfg) > 0.0 ==> Delay(rt, pick) >= Spacing(cfg)
  {
    if Spacing(cfg) > 0.0 {
      ScaledUp(pick, rt.backoff);
    }
  }

  lemma {:induction false} FloodScales(cfg: Config, rt: Runtime, now: real, seconds: int)
    requires cfg.floodMultiplier >= 1.0 && rt.backoff >= 1.0
    ensures Flooded(cfg, rt, now, seconds).backoff >= 1.0
  {
    ScaledUp(RollHour(cfg, rt, now).backoff, cfg.floodMultiplier);
  }

  lemma {:induction false} BackoffAtLeastOne(su: Setup, s: World, step: Step)
    requires ValidSetup(su) && Enabled(su, s, step) && s.rt.backoff >= 1.0
    ensures Apply(su, s, step).rt.backoff >= 1.0
  {
    if step.Flood? {
      FloodScales(su.cfg, s.rt, s.now, step.seconds);
    } else if step.Ask? || step.Take? {
      AskOnlyRolls(su.cfg, s.rt, s.now, step.p);
    }
  }

  /** Only leaving a throttle moves last_action_at, and only there does the history grow. */
  lemma {:induction false} PaceFrame(su: Setup, s: World, step: Step)
    requires Enabled(su, s, step) && !step.LeaveThrottle?
    ensures var s' := Apply(su, s, step);
            && s'.rt.lastActionAt == s.rt.lastActionAt && s'.paced == s.paced && s'.now >= s.now
            && (!step.EnterThrottle? && !step.AbortThrottle? ==> s'.sleeper == s.sleeper)
  {
    if step.Ask? || step.Take? {
      AskWorks(su.cfg, s.rt, s.now, step.p);
    }
  }

  /** The histories miss nothing: a group throttle that completes and a scan that ends are recorded at their
      time, and nothing else is. */
  lemma {:induction false} HistoriesAre(su: Setup, s: World, step: Step)
    requires Enabled(su, s, step)
    ensures var s' := Apply(su, s, step);
            && s'.paced == (if step.LeaveThrottle? && s.sleeper.value.op == GroupOp then s.paced + [s.now] else s.paced)
            && s'.bumps == (if step.EndScan? then s.bumps + [s.now] else s.bumps)
            && (step.LeaveThrottle? ==> s'.rt.lastActionAt == Some(s.now))
  {
  }

  lemma {:induction false} PaceStep(su: Setup, s: World, step: Step)
    requires ValidSetup(su) && PaceInv(su, s) && Enabled(su, s, step)
    ensures PaceInv(su, Apply(su, s, step))
  {
    BackoffAtLeastOne(su, s, step);
    if step.LeaveThrottle? {
    } else {
      PaceFrame(su, s, step);
      if step.EnterThrottle? && step.op.GroupOp? {
        LongDelay(su.cfg, s.rt, step.pick);
      }
    }
  }

  lemma {:induction false} PaceRun(su: Setup, s: World, steps: seq<Step>)
    requires ValidSetup(su) && PaceInv(su, s) && EnabledAll(su, s, steps)
    ensures PaceInv(su, Exec(su, s, steps))
    decreases |steps|
  {
    if steps != [] {
      PaceStep(su, s, steps[0]);
      PaceRun(su, Apply(su, s, steps[0]), steps[1..]);
    }
  }

  lemma {:induction false} Telescope(times: seq<real>, d: real, i: nat, j: nat)
    requires i <= j < |times| && forall k :: 0 < k < |times| ==> times[k] - times[k - 1] >= d
    ensures times[j] - times[i] >= (j - i) as real * d
    decreases j - i
  {
    if i < j {
      Telescope(times, d, i, j - 1);
      assert (j - i) as real * d == (j - 1 - i) as real * d + d;
    }
  }

  /** Any n completed group throttles span at least (n - 1) * min(lo, 120) seconds, whatever else
      shares the limiter. */
  lemma {:induction false} ThrottleSpacing(su: Setup, s0: World, s: World, i: nat, n: nat)
    requires ValidSetup(su) && Reaches(su, s0, s) && n > 0 && i + n <= |s.paced|
    ensures s.paced[i + n - 1] - s.paced[i] >= (n - 1) as real * Spacing(su.cfg)
  {
    var steps :| EnabledAll(su, s0, steps) && Exec(su, s0, steps) == s;
    PaceRun(su, s0, steps);
    Telescope(s.paced, Spacing(su.cfg), i, i + n - 1);
  }

  // ---------------- backoff ----------------

  function Pow(b: real, n: nat): real {
    if n == 0 then 1.0 else b * Pow(b, n - 1)
  }

  /** The multiplier is a power: of all counted floods, or of those since the load while the loaded
      count is still there. */
  ghost predicate ClosedForm(cfg: Config, rt: Runtime, loaded: int) {
    || (rt.floodsHour >= loaded && rt.backoff == Pow(cfg.floodMultiplier, rt.floodsHour - loaded))
    || (rt.floodsHour >= 0 && rt.backoff == Pow(cfg.floodMultiplier, rt.floodsHour))
  }

  lemma {:induction false} RollKeepsClosedForm(cfg: Config, rt: Runtime, now: real, loaded: int)
    requires ClosedForm(cfg, rt, loaded)
    ensures ClosedForm(cfg, RollHour(cfg, rt, now), loaded)
  {
    assert Pow(cfg.floodMultiplier, 0) == 1.0;
  }

  lemma {:induction false} AskOnlyRolls(cfg: Config, rt: Runtime, now: real, p: Picks)
    ensures CanContinue(cfg, rt, now, p).0.floodsHour == RollHour(cfg, rt, now).floodsHour
    ensures CanContinue(cfg, rt, now, p).0.backoff == RollHour(cfg, rt, now).backoff
  {
  }

  lemma {:induction false} BackoffStep(su: Setup, s: World, step: Step, loaded: int)
    requires ClosedForm(su.cfg, s.rt, loaded) && Enabled(su, s, step)
    ensures ClosedForm(su.cfg, Apply(su, s, step).rt, loaded)
  {
    if step.Ask? || step.Take? {
      AskOnlyRolls(su.cfg, s.rt, s.now, step.p);
      RollKeepsClosedForm(su.cfg, s.rt, s.now, loaded);
    } else if step.Flood? {
      RollKeepsClosedForm(su.cfg, s.rt, s.now, loaded);
    }
  }

  lemma {:induction false} BackoffRun(su: Setup, s: World, steps: seq<Step>, loaded: int)
    requires ClosedForm(su.cfg, s.rt, loaded) && EnabledAll(su, s, steps)
    ensures ClosedForm(su.cfg, Exec(su, s, steps).rt, loaded)
    decreases |steps|
  {
    if steps != [] {
      BackoffStep(su, s, steps[0], loaded);
      BackoffRun(su, Apply(su, s, steps[0]), steps[1..], loaded);
    }
  }

  /** In every reachable state the backoff multiplier is multiplier^floods_hour, if no floods were
      loaded; otherwise the loaded count is discounted until the first reset. */
  lemma {:induction false} BackoffIsAPower(su: Setup, s0: World, s: World)
    requires Reaches(su, s0, s)
    ensures ClosedForm(su.cfg, s.rt, s0.rt.floodsHour)
    ensures s0.rt.floodsHour == 0 ==>
              s.rt.floodsHour >= 0 && s.rt.backoff == Pow(su.cfg.floodMultiplier, s.rt.floodsHour)
  {
    var steps :| EnabledAll(su, s0, steps) && Exec(su, s0, steps) == s;
    assert Pow(su.cfg.floodMultiplier, 0) == 1.0;
    BackoffRun(su, s0, steps, s0.rt.floodsHour);
  }

  lemma {:induction false} PowPositive(b: real, n: nat)
    requires b >= 1.0
    ensures Pow(b, n) >= 1.0
  {
    if n > 0 {
      PowPositive(b, n - 1);
      assert (b - 1.0) * Pow(b, n - 1) >= 0.0;
    }
  }

  /** handle_flood keeps the closed form exactly when the flood is short (or the multiplier is 1):
      the long branch counts the flood and leaves the multiplier alone. */
  lemma {:induction false} ClosedFormNeedsShortFloods(cfg: Config, rt: Runtime, now: real, seconds: int)
    requires cfg.floodMultiplier >= 1.0
    requires rt.floodsHour >= 0 && rt.backoff == Pow(cfg.floodMultiplier, rt.floodsHour)
    ensures var rt' := Flooded(cfg, rt, now, seconds);
            && rt'.floodsHour >= 0
            && (rt'.backoff == Pow(cfg.floodMultiplier, rt'.floodsHour)
                <==> seconds < cfg.floodLongThreshold || cfg.floodMultiplier == 1.0)
  {
    var r := RollHour(cfg, rt, now);
    assert r.backoff == Pow(cfg.floodMultiplier, r.floodsHour) by {
      assert Pow(cfg.floodMultiplier, 0) == 1.0;
    }
    var m, b := cfg.floodMultiplier, r.backoff;
    PowPositive(m, r.floodsHour);
    assert Pow(m, r.floodsHour + 1) == m * b;
    assert m * b - b == (m - 1.0) * b;
    if m > 1.0 {
      assert (m - 1.0) * b > 0.0;
    }
  }

  // ---------------- bans ----------------

  predicate BannedUntil(s: World, x: real) {
    s.rt.bannedUntil.Some? && s.rt.bannedUntil.value >= x
  }

  predicate MovesBan(step: Step) {
    step.Ban? || step.Unban?
  }

  lemma {:induction false} BanStep(su: Setup, s: World, step: Step, x: real)
    requires Enabled(su, s, step) && !MovesBan(step) && s.now < x && BannedUntil(s, x)
    ensures BannedUntil(Apply(su, s, step), x)
  {
  }

  lemma {:induction false} BanHolds(su: Setup, s: World, steps: seq<Step>, x: real)
    requires EnabledAll(su, s, steps) && BannedUntil(s, x) && Exec(su, s, steps).now < x
    requires forall i :: 0 <= i < |steps| ==> !MovesBan(steps[i])
    ensures BannedUntil(Exec(su, s, steps), x)
    decreases |steps|
  {
    ClockGrows(su, s, steps);
    if steps != [] {
      BanStep(su, s, steps[0], x);
      BanHolds(su, Apply(su, s, steps[0]), steps[1..], x);
    }
  }

  /** Until the next ban or recovery, a ban of n seconds keeps the account out for n seconds. */
  lemma {:induction false} NoGrantWhileBanned(su: Setup, s: World, seconds: int, steps: seq<Step>, p: Picks)
    requires EnabledAll(su, Apply(su, s, Ban(seconds)), steps)
    requires forall i :: 0 <= i < |steps| ==> !MovesBan(steps[i])
    requires Exec(su, Apply(su, s, Ban(seconds)), steps).now < s.now + seconds as real
    ensures !Grants(su, Exec(su, Apply(su, s, Ban(seconds)), steps), p)
  {
    BanHolds(su, Apply(su, s, Ban(seconds)), steps, s.now + seconds as real);
  }
}
