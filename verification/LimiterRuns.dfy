/** One account shared by a pool of workers, over a whole process run: asks, scans, throttles,
    floods, bans and the clock in any order, with the history the bounds are about. */
module LimiterRuns {
  import opened Base
  import opened RateLimiter

  datatype Setup = Setup(cfg: Config, workers: nat)

  /** A caller inside throttle, holding the lock. */
  datatype Sleeper = Sleeper(op: Operation, wakeAt: real)

  datatype World = World(
    now: real,
    rt: Runtime,
    holders: set<nat>,          // workers granted the account whose scan has not ended
    sleeper: Option<Sleeper>,
    bumps: seq<real>,           // history: when groups_today was bumped
    paced: seq<real>)           // history: when group throttles completed

  datatype Step =
    | Tick(dt: real)
    | Ask(p: Picks)                       // can_continue by anyone who will not scan
    | Take(w: nat, p: Picks)              // can_continue by a worker; a grant starts a scan
    | Peek(p: Picks)                      // is_banned and is_resting, as get_available and stats call them
    | EnterThrottle(op: Operation, pick: real, jitter: real)
    | LeaveThrottle
    | AbortThrottle
    | EndScan(w: nat)                     // bump("groups_today")
    | GiveUp(w: nat)                      // the scan ended in an exception
    | BumpOther(field: Counter, amount: nat)
    | Flood(seconds: int)                 // delivered by the runner, so short
    | Ban(seconds: int)
    | Unban

  predicate ValidSetup(su: Setup) {
    && su.cfg.workMinutes.0 <= su.cfg.workMinutes.1
    && su.cfg.restMinutes.0 <= su.cfg.restMinutes.1
    && su.cfg.floodMultiplier >= 1.0
  }

  predicate Enabled(su: Setup, s: World, step: Step) {
    match step
    case Tick(dt) => dt >= 0.0
    case Ask(p) => ValidPicks(su.cfg, p)
    case Take(w, p) => w < su.workers && w !in s.holders && ValidPicks(su.cfg, p)
    case Peek(p) => ValidPicks(su.cfg, p)
    case EnterThrottle(op, pick, jitter) =>
      s.sleeper.None? && ValidDelay(su.cfg, op, pick) && ValidJitter(s.rt, pick, jitter)
    case LeaveThrottle => s.sleeper.Some? && s.now >= s.sleeper.value.wakeAt
    case AbortThrottle => s.sleeper.Some?
    case EndScan(w) => w in s.holders
    case GiveUp(w) => w in s.holders
    case BumpOther(field, _) => field != GroupsToday
    case Flood(seconds) => seconds < su.cfg.floodLongThreshold
    case _ => true
  }

  function Apply(su: Setup, s: World, step: Step): World
    requires Enabled(su, s, step)
  {
    match step
    case Tick(dt) => s.(now := s.now + dt)
    case Ask(p) => s.(rt := CanContinue(su.cfg, s.rt, s.now, p).0)
    case Take(w, p) =>
      var (rt, answer) := CanContinue(su.cfg, s.rt, s.now, p);
      s.(rt := rt, holders := if answer.Granted? then s.holders + {w} else s.holders)
    case Peek(p) =>
      if BanActive(s.rt, s.now) then s
      else s.(rt := AfterRestCheck(AfterBanCheck(s.rt, s.now), s.now, p))
    case EnterThrottle(op, pick, jitter) =>
      s.(rt := WorkBegun(s.rt, s.now),
         sleeper := Some(Sleeper(op, WakeAt(s.rt, s.now, pick, jitter))))
    case LeaveThrottle =>
      s.(rt := s.rt.(lastActionAt := Some(s.now)), sleeper := None,
         paced := if s.sleeper.value.op.GroupOp? then s.paced + [s.now] else s.paced)
    case AbortThrottle => s.(sleeper := None)
    case EndScan(w) =>
      s.(rt := Bumped(s.rt, GroupsToday, 1), holders := s.holders - {w}, bumps := s.bumps + [s.now])
    case GiveUp(w) => s.(holders := s.holders - {w})
    case BumpOther(field, amount) => s.(rt := Bumped(s.rt, field, amount))
    case Flood(seconds) => s.(rt := Flooded(su.cfg, s.rt, s.now, seconds))
    case Ban(seconds) => s.(rt := LongBanned(s.rt, s.now, seconds))
    case Unban => s.(rt := s.rt.(bannedUntil := None))
  }

  /** Would can_continue answer yes now? */
  predicate Grants(su: Setup, s: World, p: Picks) {
    CanContinue(su.cfg, s.rt, s.now, p).1.Granted?
  }

  predicate EnabledAll(su: Setup, s: World, steps: seq<Step>)
    decreases |steps|
  {
    steps == [] || (Enabled(su, s, steps[0]) && EnabledAll(su, Apply(su, s, steps[0]), steps[1..]))
  }

  function Exec(su: Setup, s: World, steps: seq<Step>): World
    requires EnabledAll(su, s, steps)
    decreases |steps|
  {
    if steps == [] then s else Exec(su, Apply(su, s, steps[0]), steps[1..])
  }

  /** A freshly loaded account: daily counters, floods_hour and the ban may come from the database. */
  ghost predicate Fresh(su: Setup, s: World) {
    && s.now >= 0.0 && s.holders == {} && s.sleeper.None? && s.bumps == [] && s.paced == []
    && s.rt.groupsHour == 0 && s.rt.hourSlot == 0 && s.rt.dayDate.None?
    && s.rt.lastFloodAt.None? && s.rt.backoff == 1.0
    && s.rt.workStartedAt.None? && s.rt.restUntil.None? && s.rt.lastActionAt.None?
    && exists work :: InRange(work, su.cfg.workMinutes) && s.rt.workDuration == work * 60
  }

  /** s0 is a freshly loaded account and s a state some run takes it to. */
  ghost predicate Reaches(su: Setup, s0: World, s: World) {
    Fresh(su, s0) && exists steps :: EnabledAll(su, s0, steps) && Exec(su, s0, steps) == s
  }

  lemma {:induction false} RunConcat(su: Setup, s: World, a: seq<Step>, step: Step)
    requires EnabledAll(su, s, a) && Enabled(su, Exec(su, s, a), step)
    ensures EnabledAll(su, s, a + [step]) && Exec(su, s, a + [step]) == Apply(su, Exec(su, s, a), step)
    decreases |a|
  {
    if a == [] {
      assert a + [step] == [step] && [step][1..] == [];
      assert EnabledAll(su, Apply(su, s, step), []);
      assert Exec(su, s, [step]) == Exec(su, Apply(su, s, step), []);
    } else {
      assert (a + [step])[1..] == a[1..] + [step];
      RunConcat(su, Apply(su, s, a[0]), a[1..], step);
    }
  }

  lemma {:induction false} Extend(su: Setup, s0: World, s: World, step: Step)
    requires Reaches(su, s0, s) && Enabled(su, s, step)
    ensures Reaches(su, s0, Apply(su, s, step))
  {
    var steps :| EnabledAll(su, s0, steps) && Exec(su, s0, steps) == s;
    RunConcat(su, s0, steps, step);
    assert EnabledAll(su, s0, steps + [step]) && Exec(su, s0, steps + [step]) == Apply(su, s, step);
  }

  // ---------------- hour and day caps ----------------

  /** How many of the recorded times fall in slot k. */
  function CountIn(times: seq<real>, length: real, k: int): nat
    requires length > 0.0
  {
    if times == [] then 0
    else CountIn(times[..|times| - 1], length, k) + if Slot(times[|times| - 1], length) == k then 1 else 0
  }

  lemma {:induction false} SlotMonotone(a: real, b: real, length: real)
    requires a <= b && length > 0.0
    ensures Slot(a, length) <= Slot(b, length)
  {
    var q, r := a / length, b / length;
    assert q * length == a && r * length == b;
    if q > r {
      assert (q - r) * length > 0.0;
    }
  }

  lemma {:induction false} NoneLater(times: seq<real>, now: real, length: real, k: int)
    requires length > 0.0 && k > Slot(now, length)
    requires forall i :: 0 <= i < |times| ==> times[i] <= now
    ensures CountIn(times, length, k) == 0
  {
    if times != [] {
      SlotMonotone(times[|times| - 1], now, length);
      NoneLater(times[..|times| - 1], now, length, k);
    }
  }

  /** One capped counter and its slot. `open`: the counter has been rolled in this process;
      `rolled`: it was rolled in the current slot. */
  ghost predicate Window(count: int, open: bool, rolled: bool, length: real, cap: int, workers: nat, s: World)
    requires length > 0.0
  {
    var k := Slot(s.now, length);
    && (open ==> 0 <= count && count + |s.holders| < cap + workers)
    && (!open ==> s.holders == {} && s.bumps == [] && !rolled)
    && (rolled ==> CountIn(s.bumps, length, k) <= workers + count)
    && (!rolled ==> CountIn(s.bumps, length, k) + |s.holders| <= workers)
    && (forall j :: CountIn(s.bumps, length, j) < cap + 2 * workers)
  }

  function CapFor(su: Setup, rt: Runtime, daily: bool): int {
    Max(0, Cap(if daily then su.cfg.maxGroupsPerDay else su.cfg.maxGroupsPerHour, rt.premium))
  }

  ghost predicate HourWindow(su: Setup, s: World) {
    Window(s.rt.groupsHour, true, s.rt.hourSlot == Slot(s.now, HOUR), HOUR, CapFor(su, s.rt, false), su.workers, s)
  }

  ghost predicate DayWindow(su: Setup, s: World) {
    Window(s.rt.groupsToday, s.rt.dayDate.Some?, s.rt.dayDate == Some(Slot(s.now, DAY)), DAY,
           CapFor(su, s.rt, true), su.workers, s)
  }

  ghost predicate CapInv(su: Setup, s: World) {
    && su.workers > 0
    && (forall w :: w in s.holders ==> w < su.workers)
    && |s.holders| <= su.workers
    && s.rt.hourSlot <= Slot(s.now, HOUR)
    && (s.rt.dayDate.Some? ==> s.rt.dayDate.value <= Slot(s.now, DAY))
    && (forall i :: 0 <= i < |s.bumps| ==> s.bumps[i] <= s.now)
    && HourWindow(su, s)
    && DayWindow(su, s)
  }

  lemma {:induction false} BoundedSet(xs: set<nat>, n: nat)
    requires forall x :: x in xs ==> x < n
    ensures |xs| <= n
  {
    if n > 0 {
      var ys := xs - {n - 1};
      BoundedSet(ys, n - 1);
      assert xs <= ys + {n - 1};
      if n - 1 in xs {
        assert xs == ys + {n - 1};
      } else {
        assert xs == ys;
      }
    } else {
      assert xs == {};
    }
  }

  /** can_continue as the caps see it: both slots rolled, and a grant only below both caps. */
  lemma {:induction false} AskRolls(cfg: Config, rt: Runtime, now: real, p: Picks)
    ensures var (rt', answer) := CanContinue(cfg, rt, now, p);
            && rt'.hourSlot == Slot(now, HOUR) && rt'.dayDate == Some(Slot(now, DAY))
            && rt'.groupsHour == (if rt.hourSlot == Slot(now, HOUR) then rt.groupsHour else 0)
            && rt'.groupsToday == (if rt.dayDate == Some(Slot(now, DAY)) then rt.groupsToday else 0)
            && rt'.premium == rt.premium
            && (answer.Granted? ==> rt'.groupsHour < Cap(cfg.maxGroupsPerHour, rt.premium)
                                    && rt'.groupsToday < Cap(cfg.maxGroupsPerDay, rt.premium))
  {
  }

  lemma {:induction false} FloodRolls(cfg: Config, rt: Runtime, now: real, seconds: int)
    ensures var rt' := Flooded(cfg, rt, now, seconds);
            && rt'.hourSlot == Slot(now, HOUR) && rt'.dayDate == rt.dayDate
            && rt'.groupsHour == (if rt.hourSlot == Slot(now, HOUR) then rt.groupsHour else 0)
            && rt'.groupsToday == rt.groupsToday && rt'.premium == rt.premium
  {
  }

  lemma {:induction false} TickKeepsCaps(su: Setup, s: World, step: Step)
    requires CapInv(su, s) && step.Tick? && Enabled(su, s, step)
    ensures CapInv(su, Apply(su, s, step))
  {
    var s' := Apply(su, s, step);
    SlotMonotone(s.now, s'.now, HOUR);
    SlotMonotone(s.now, s'.now, DAY);
    if Slot(s.now, HOUR) < Slot(s'.now, HOUR) {
      NoneLater(s.bumps, s.now, HOUR, Slot(s'.now, HOUR));
    }
    if Slot(s.now, DAY) < Slot(s'.now, DAY) {
      NoneLater(s.bumps, s.now, DAY, Slot(s'.now, DAY));
    }
  }

  lemma {:induction false} AskKeepsCaps(su: Setup, s: World, step: Step)
    requires CapInv(su, s) && (step.Ask? || step.Take?) && Enabled(su, s, step)
    ensures CapInv(su, Apply(su, s, step))
  {
    AskRolls(su.cfg, s.rt, s.now, step.p);
    BoundedSet(Apply(su, s, step).holders, su.workers);
  }

  lemma {:induction false} CountAppend(times: seq<real>, now: real, length: real, k: int)
    requires length > 0.0
    ensures CountIn(times + [now], length, k) ==
            CountIn(times, length, k) + if Slot(now, length) == k then 1 else 0
  {
    assert (times + [now])[..|times|] == times;
  }

  lemma {:induction false} EndScanKeepsCaps(su: Setup, s: World, step: Step)
    requires CapInv(su, s) && step.EndScan? && Enabled(su, s, step)
    ensures CapInv(su, Apply(su, s, step))
  {
    var s' := Apply(su, s, step);
    assert |s'.holders| == |s.holders| - 1;
    forall k: int
      ensures CountIn(s'.bumps, HOUR, k) == CountIn(s.bumps, HOUR, k) + if Slot(s.now, HOUR) == k then 1 else 0
      ensures CountIn(s'.bumps, DAY, k) == CountIn(s.bumps, DAY, k) + if Slot(s.now, DAY) == k then 1 else 0
    {
      CountAppend(s.bumps, s.now, HOUR, k);
      CountAppend(s.bumps, s.now, DAY, k);
    }
  }

  /** Steps that touch neither the group counters nor the holders nor the clock. */
  lemma {:induction false} QuietKeepsCaps(su: Setup, s: World, s': World)
    requires CapInv(su, s)
    requires s'.now == s.now && s'.holders == s.holders && s'.bumps == s.bumps
    requires s'.rt.hourSlot == s.rt.hourSlot && s'.rt.dayDate == s.rt.dayDate && s'.rt.premium == s.rt.premium
    requires s'.rt.groupsHour == s.rt.groupsHour && s'.rt.groupsToday == s.rt.groupsToday
    ensures CapInv(su, s')
  {
  }

  predicate CapQuiet(step: Step) {
    step.Peek? || step.EnterThrottle? || step.LeaveThrottle? || step.AbortThrottle? || step.BumpOther? ||
    step.Ban? || step.Unban?
  }

  lemma {:induction false} CapQuietStep(su: Setup, s: World, step: Step)
    requires Enabled(su, s, step) && CapQuiet(step)
    ensures var s' := Apply(su, s, step);
            && s'.now == s.now && s'.holders == s.holders && s'.bumps == s.bumps
            && s'.rt.hourSlot == s.rt.hourSlot && s'.rt.dayDate == s.rt.dayDate && s'.rt.premium == s.rt.premium
            && s'.rt.groupsHour == s.rt.groupsHour && s'.rt.groupsToday == s.rt.groupsToday
  {
  }

  lemma {:induction false} GiveUpKeepsCaps(su: Setup, s: World, step: Step)
    requires CapInv(su, s) && step.GiveUp? && Enabled(su, s, step)
    ensures CapInv(su, Apply(su, s, step))
  {
    assert |s.holders - {step.w}| == |s.holders| - 1;
  }

  lemma {:induction false} FloodKeepsCaps(su: Setup, s: World, step: Step)
    requires CapInv(su, s) && step.Flood? && Enabled(su, s, step)
    ensures CapInv(su, Apply(su, s, step))
  {
    FloodRolls(su.cfg, s.rt, s.now, step.seconds);
  }

  lemma {:induction false} StepKeepsCaps(su: Setup, s: World, step: Step)
    requires CapInv(su, s) && Enabled(su, s, step)
    ensures CapInv(su, Apply(su, s, step))
  {
    if CapQuiet(step) {
      CapQuietStep(su, s, step);
      QuietKeepsCaps(su, s, Apply(su, s, step));
    } else if step.Tick? {
      TickKeepsCaps(su, s, step);
    } else if step.Ask? || step.Take? {
      AskKeepsCaps(su, s, step);
    } else if step.EndScan? {
      EndScanKeepsCaps(su, s, step);
    } else if step.GiveUp? {
      GiveUpKeepsCaps(su, s, step);
    } else {
      FloodKeepsCaps(su, s, step);
    }
  }

  lemma {:induction false} FreshCaps(su: Setup, s: World)
    requires su.workers > 0 && Fresh(su, s)
    ensures CapInv(su, s)
  {
    SlotMonotone(0.0, s.now, HOUR);
    assert Slot(0.0, HOUR) == 0;
  }

  lemma {:induction false} RunKeepsCaps(su: Setup, s: World, steps: seq<Step>)
    requires CapInv(su, s) && EnabledAll(su, s, steps)
    ensures CapInv(su, Exec(su, s, steps)) && Exec(su, s, steps).rt.premium == s.rt.premium
    decreases |steps|
  {
    if steps != [] {
      StepKeepsCaps(su, s, steps[0]);
      PremiumKept(su, s, steps[0]);
      RunKeepsCaps(su, Apply(su, s, steps[0]), steps[1..]);
    }
  }

  lemma {:induction false} PremiumKept(su: Setup, s: World, step: Step)
    requires Enabled(su, s, step)
    ensures Apply(su, s, step).rt.premium == s.rt.premium
  {
  }

  /** The hourly counter passes its cap by at most W - 1, and the true number of scans ended in any
      clock hour by at most 2W - 1. */
  lemma {:induction false} HourlyCapBound(su: Setup, s0: World, s: World, hour: int)
    requires su.workers > 0 && Reaches(su, s0, s)
    ensures var cap := Max(0, Cap(su.cfg.maxGroupsPerHour, s0.rt.premium));
            && s.rt.groupsHour <= cap + su.workers - 1
            && CountIn(s.bumps, HOUR, hour) <= cap + 2 * su.workers - 1
  {
    var steps :| EnabledAll(su, s0, steps) && Exec(su, s0, steps) == s;
    FreshCaps(su, s0);
    RunKeepsCaps(su, s0, steps);
  }

  /** The same for the daily cap, within one process run: what was loaded from the database does
      not count, because day_date is not loaded with it. */
  lemma {:induction false} DailyCapBound(su: Setup, s0: World, s: World, day: int)
    requires su.workers > 0 && Reaches(su, s0, s)
    ensures var cap := Max(0, Cap(su.cfg.maxGroupsPerDay, s0.rt.premium));
            && (s.rt.dayDate.Some? ==> s.rt.groupsToday <= cap + su.workers - 1)
            && CountIn(s.bumps, DAY, day) <= cap + 2 * su.workers - 1
  {
    var steps :| EnabledAll(su, s0, steps) && Exec(su, s0, steps) == s;
    FreshCaps(su, s0);
    RunKeepsCaps(su, s0, steps);
  }

  /** The first answer after a load does not depend on the loaded daily counters. */
  lemma {:induction false} LoadedDayIsForgotten(cfg: Config, rt: Runtime, now: real, p: Picks,
      groups: int, members: int, messages: int, profiles: int, searches: int)
    requires rt.dayDate.None?
    ensures var loaded := rt.(groupsToday := groups, membersToday := members, messagesToday := messages,
                              profilesToday := profiles, searchesToday := searches);
            CanContinue(cfg, loaded, now, p) == CanContinue(cfg, rt, now, p)
  {
  }
}
