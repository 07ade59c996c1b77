/** The per-account limiter: what each method does to the account's runtime record, first as
    functions of the record, then as the object that updates it in place.
    Times are seconds since the epoch; random choices are parameters within the configured ranges. */
module RateLimiter {
  import opened Base

  datatype Config = Config(
    delayGroups: (real, real),
    delayProfiles: (real, real),
    delaySearches: (real, real),
    delayMessages: real,
    maxGroupsPerDay: int,
    maxGroupsPerHour: int,
    maxFloods: int,
    floodMultiplier: real,
    floodResetHours: int,
    floodLongThreshold: int,
    workMinutes: (int, int),
    restMinutes: (int, int),
    nightPause: (int, int))

  datatype Runtime = Runtime(
    premium: bool,
    groupsToday: int,
    membersToday: int,
    messagesToday: int,
    profilesToday: int,
    searchesToday: int,
    groupsHour: int,
    hourSlot: int,
    floodsHour: int,
    lastFloodAt: Option<real>,
    backoff: real,
    workStartedAt: Option<real>,
    workDuration: int,
    restUntil: Option<real>,
    bannedUntil: Option<real>,
    lastActionAt: Option<real>,
    dayDate: Option<int>)

  /** One draw of each random choice a call may need: minutes of work and minutes of rest. */
  datatype Picks = Picks(work: int, rest: int)

  datatype Operation = GroupOp | MessagesBatch | Profile | Search | OtherOp

  datatype Counter = GroupsToday | MembersToday | MessagesToday | ProfilesToday | SearchesToday

  datatype Answer = Granted | Banned | Resting | NightPause | DailyCap | HourlyCap | RestCycle

  predicate InRange(x: int, range: (int, int)) {
    range.0 <= x <= range.1
  }

  predicate ValidPicks(cfg: Config, p: Picks) {
    InRange(p.work, cfg.workMinutes) && InRange(p.rest, cfg.restMinutes)
  }

  // ---------------- clock ----------------

  const HOUR: real := 3600.0
  const DAY: real := 86400.0

  function Slot(now: real, length: real): int
    requires length > 0.0
  {
    (now / length).Floor
  }

  function HourOfDay(now: real): int {
    Slot(now, HOUR) % 24
  }

  function Minutes(m: int): real {
    m as real * 60.0
  }

  // ---------------- state ----------------

  /** int(max * multiplier), the multiplier being 1.5 for premium accounts; int() truncates. */
  function Cap(max: int, premium: bool): int {
    if !premium then max else if max >= 0 then max * 3 / 2 else -(-max * 3 / 2)
  }

  predicate NightHour(cfg: Config, h: int) {
    var (lo, hi) := cfg.nightPause;
    if lo <= hi then lo <= h < hi else h >= lo || h < hi
  }

  predicate InNightPause(cfg: Config, now: real) {
    NightHour(cfg, HourOfDay(now))
  }

  function RollDay(rt: Runtime, now: real): Runtime {
    if rt.dayDate == Some(Slot(now, DAY)) then rt
    else rt.(dayDate := Some(Slot(now, DAY)), groupsToday := 0, membersToday := 0,
             messagesToday := 0, profilesToday := 0, searchesToday := 0)
  }

  predicate FloodsForgotten(cfg: Config, rt: Runtime, now: real) {
    rt.lastFloodAt.Some? && now - rt.lastFloodAt.value > cfg.floodResetHours as real * HOUR
  }

  function RollHour(cfg: Config, rt: Runtime, now: real): Runtime {
    if rt.hourSlot == Slot(now, HOUR) then rt
    else
      var rolled := rt.(hourSlot := Slot(now, HOUR), groupsHour := 0);
      if FloodsForgotten(cfg, rt, now) then rolled.(floodsHour := 0, backoff := 1.0) else rolled
  }

  predicate BanActive(rt: Runtime, now: real) {
    rt.bannedUntil.Some? && now < rt.bannedUntil.value
  }

  function AfterBanCheck(rt: Runtime, now: real): Runtime {
    if BanActive(rt, now) then rt else rt.(bannedUntil := None)
  }

  predicate RestActive(rt: Runtime, now: real) {
    rt.restUntil.Some? && now < rt.restUntil.value
  }

  function AfterRestCheck(rt: Runtime, now: real, p: Picks): Runtime {
    if rt.restUntil.None? || RestActive(rt, now) then rt
    else rt.(restUntil := None, workStartedAt := None, workDuration := p.work * 60)
  }

  predicate ShouldRest(rt: Runtime, now: real) {
    rt.workStartedAt.Some? && now - rt.workStartedAt.value >= rt.workDuration as real
  }

  function StartedRest(rt: Runtime, now: real, p: Picks): Runtime {
    rt.(restUntil := Some(now + Minutes(p.rest)), workStartedAt := None)
  }

  /** can_continue: the record after the call and the answer. */
  function CanContinue(cfg: Config, rt: Runtime, now: real, p: Picks): (Runtime, Answer) {
    var r0 := RollHour(cfg, RollDay(rt, now), now);
    if BanActive(r0, now) then (r0, Banned)
    else
      var r1 := AfterBanCheck(r0, now);
      if RestActive(r1, now) then (r1, Resting)
      else
        var r2 := AfterRestCheck(r1, now, p);
        if InNightPause(cfg, now) then (r2, NightPause)
        else if r2.groupsToday >= Cap(cfg.maxGroupsPerDay, r2.premium) then (r2, DailyCap)
        else if r2.groupsHour >= Cap(cfg.maxGroupsPerHour, r2.premium) then (r2, HourlyCap)
        else if ShouldRest(r2, now) then (StartedRest(r2, now, p), RestCycle)
        else (r2, Granted)
  }

  // ---------------- throttle ----------------

  function Low(range: (real, real)): real {
    if range.0 <= range.1 then range.0 else range.1
  }

  function High(range: (real, real)): real {
    if range.0 <= range.1 then range.1 else range.0
  }

  /** The range random.uniform draws the base delay from. */
  function DelayRange(cfg: Config, op: Operation): (real, real) {
    match op
    case GroupOp => cfg.delayGroups
    case MessagesBatch => (cfg.delayMessages, cfg.delayMessages)
    case Profile => cfg.delayProfiles
    case Search => cfg.delaySearches
    case OtherOp => (0.0, 0.0)
  }

  predicate ValidDelay(cfg: Config, op: Operation, pick: real) {
    Low(DelayRange(cfg, op)) <= pick <= High(DelayRange(cfg, op))
  }

  function Delay(rt: Runtime, pick: real): real {
    if pick * rt.backoff <= 120.0 then pick * rt.backoff else 120.0
  }

  predicate ValidJitter(rt: Runtime, pick: real, jitter: real) {
    0.0 <= jitter <= (if Delay(rt, pick) >= 1.0 then 1.0 else if Delay(rt, pick) > 0.0 then Delay(rt, pick) else 0.0)
  }

  /** The earliest moment a throttle entered at `now` may finish. */
  function WakeAt(rt: Runtime, now: real, pick: real, jitter: real): real {
    if rt.lastActionAt.Some? then
      if now - rt.lastActionAt.value < Delay(rt, pick)
      then now + (Delay(rt, pick) - (now - rt.lastActionAt.value))
      else now
    else now + jitter
  }

  function WorkBegun(rt: Runtime, now: real): Runtime {
    if rt.workStartedAt.None? then rt.(workStartedAt := Some(now)) else rt
  }

  // ---------------- counters, floods, bans ----------------

  function Bumped(rt: Runtime, field: Counter, amount: int): Runtime {
    match field
    case GroupsToday => rt.(groupsToday := rt.groupsToday + amount, groupsHour := rt.groupsHour + amount)
    case MembersToday => rt.(membersToday := rt.membersToday + amount)
    case MessagesToday => rt.(messagesToday := rt.messagesToday + amount)
    case ProfilesToday => rt.(profilesToday := rt.profilesToday + amount)
    case SearchesToday => rt.(searchesToday := rt.searchesToday + amount)
  }

  function LongBanned(rt: Runtime, now: real, seconds: int): Runtime {
    rt.(bannedUntil := Some(now + seconds as real))
  }

  /** handle_flood up to its sleep. */
  function Flooded(cfg: Config, rt: Runtime, now: real, seconds: int): Runtime {
    var r0 := RollHour(cfg, rt, now);
    var r1 := r0.(floodsHour := r0.floodsHour + 1, lastFloodAt := Some(now));
    if seconds >= cfg.floodLongThreshold then LongBanned(r1, now, seconds)
    else
      var r2 := if r1.floodsHour >= cfg.maxFloods then r1.(restUntil := Some(now + Minutes(60))) else r1;
      r2.(backoff := r2.backoff * cfg.floodMultiplier)
  }

  // ---------------- the object ----------------

  class RateLimiter {
    const cfg: Config
    var rt: Runtime
    var locked: bool

    constructor (cfg: Config, runtime: Runtime, p: Picks)
      requires ValidPicks(cfg, p)
      ensures this.cfg == cfg && rt == runtime.(workDuration := p.work * 60) && !locked
    {
      this.cfg := cfg;
      rt := runtime.(workDuration := p.work * 60);
      locked := false;
    }

    method RollDayCounters(now: real)
      modifies this`rt
      ensures rt == RollDay(old(rt), now)
    {
      var today := Slot(now, DAY);
      if rt.dayDate != Some(today) {
        rt := rt.(dayDate := Some(today));
        rt := rt.(groupsToday := 0);
        rt := rt.(membersToday := 0);
        rt := rt.(messagesToday := 0);
        rt := rt.(profilesToday := 0);
        rt := rt.(searchesToday := 0);
      }
    }

    method RollHourCounters(now: real)
      modifies this`rt
      ensures rt == RollHour(cfg, old(rt), now)
    {
      var slot := Slot(now, HOUR);
      if rt.hourSlot != slot {
        rt := rt.(hourSlot := slot);
        rt := rt.(groupsHour := 0);
        if rt.lastFloodAt.Some? && now - rt.lastFloodAt.value > cfg.floodResetHours as real * 3600.0 {
          rt := rt.(floodsHour := 0);
          rt := rt.(backoff := 1.0);
        }
      }
    }

    method IsBanned(now: real) returns (banned: bool)
      modifies this`rt
      ensures banned == BanActive(old(rt), now) && rt == AfterBanCheck(old(rt), now)
    {
      if rt.bannedUntil.Some? && now < rt.bannedUntil.value {
        return true;
      }
      if rt.bannedUntil.Some? && now >= rt.bannedUntil.value {
        rt := rt.(bannedUntil := None);
      }
      return false;
    }

    method IsResting(now: real, p: Picks) returns (resting: bool)
      requires ValidPicks(cfg, p)
      modifies this`rt
      ensures resting == RestActive(old(rt), now) && rt == AfterRestCheck(old(rt), now, p)
    {
      if rt.restUntil.None? {
        return false;
      }
      if now >= rt.restUntil.value {
        rt := rt.(restUntil := None);
        rt := rt.(workStartedAt := None);
        rt := rt.(workDuration := p.work * 60);
        return false;
      }
      return true;
    }

    method StartRest(now: real, p: Picks)
      requires ValidPicks(cfg, p)
      modifies this`rt
      ensures rt == StartedRest(old(rt), now, p)
    {
      rt := rt.(restUntil := Some(now + Minutes(p.rest)));
      rt := rt.(workStartedAt := None);
    }

    method MayContinue(now: real, p: Picks) returns (answer: Answer)
      requires ValidPicks(cfg, p)
      modifies this`rt
      ensures (rt, answer) == CanContinue(cfg, old(rt), now, p)
    {
      RollDayCounters(now);
      RollHourCounters(now);
      var banned := IsBanned(now);
      if banned {
        return Banned;
      }
      var resting := IsResting(now, p);
      if resting {
        return Resting;
      }
      if InNightPause(cfg, now) {
        return NightPause;
      }
      var cap := Cap(cfg.maxGroupsPerDay, rt.premium);
      if rt.groupsToday >= cap {
        return DailyCap;
      }
      var capHour := Cap(cfg.maxGroupsPerHour, rt.premium);
      if rt.groupsHour >= capHour {
        return HourlyCap;
      }
      if ShouldRest(rt, now) {
        StartRest(now, p);
        return RestCycle;
      }
      return Granted;
    }

    /** throttle, from taking the lock to the sleep. */
    method BeginThrottle(now: real, op: Operation, pick: real, jitter: real) returns (wakeAt: real)
      requires !locked && ValidDelay(cfg, op, pick) && ValidJitter(rt, pick, jitter)
      modifies this
      ensures locked && rt == WorkBegun(old(rt), now) && wakeAt == WakeAt(old(rt), now, pick, jitter)
      ensures wakeAt >= now
    {
      locked := true;
      if rt.workStartedAt.None? {
        rt := rt.(workStartedAt := Some(now));
      }
      var delay := pick * rt.backoff;
      delay := if delay <= 120.0 then delay else 120.0;
      wakeAt := now;
      if rt.lastActionAt.Some? {
        var elapsed := now - rt.lastActionAt.value;
        if elapsed < delay {
          wakeAt := now + (delay - elapsed);
        }
      } else {
        wakeAt := now + jitter;
      }
    }

    /** throttle, after the sleep: stamp the action and release the lock. */
    method EndThrottle(now: real)
      requires locked
      modifies this
      ensures !locked && rt == old(rt).(lastActionAt := Some(now))
    {
      rt := rt.(lastActionAt := Some(now));
      locked := false;
    }

    method Bump(field: Counter, amount: int)
      modifies this`rt
      ensures rt == Bumped(old(rt), field, amount)
    {
      match field
      case GroupsToday =>
        rt := rt.(groupsToday := rt.groupsToday + amount);
        rt := rt.(groupsHour := rt.groupsHour + amount);
      case MembersToday => rt := rt.(membersToday := rt.membersToday + amount);
      case MessagesToday => rt := rt.(messagesToday := rt.messagesToday + amount);
      case ProfilesToday => rt := rt.(profilesToday := rt.profilesToday + amount);
      case SearchesToday => rt := rt.(searchesToday := rt.searchesToday + amount);
    }

    /** sleepFor is how long the call then sleeps, `extra` being its random part. */
    method HandleFlood(now: real, seconds: int, extra: real) returns (slept: bool, sleepFor: real)
      requires 1.0 <= extra <= 3.0
      modifies this`rt
      ensures rt == Flooded(cfg, old(rt), now, seconds)
      ensures slept == (seconds < cfg.floodLongThreshold)
      ensures slept ==> sleepFor <= 120.0 && (sleepFor == 120.0 || 1.0 <= sleepFor - seconds as real <= 3.0)
      ensures slept && seconds >= 119 ==> sleepFor == 120.0
      ensures !slept ==> sleepFor == 0.0
    {
      RollHourCounters(now);
      rt := rt.(floodsHour := rt.floodsHour + 1);
      rt := rt.(lastFloodAt := Some(now));
      if seconds >= cfg.floodLongThreshold {
        rt := rt.(bannedUntil := Some(now + seconds as real));
        return false, 0.0;
      }
      if rt.floodsHour >= cfg.maxFloods {
        rt := rt.(restUntil := Some(now + Minutes(60)));
      }
      rt := rt.(backoff := rt.backoff * cfg.floodMultiplier);
      sleepFor := seconds as real + extra;
      return true, if sleepFor <= 120.0 then sleepFor else 120.0;
    }

    method MarkLongBan(now: real, seconds: int)
      modifies this`rt
      ensures rt == LongBanned(old(rt), now, seconds)
    {
      rt := rt.(bannedUntil := Some(now + seconds as real));
    }

    /** What a recovery pass does to the limiter. */
    method Unban()
      modifies this`rt
      ensures rt == old(rt).(bannedUntil := None)
    {
      rt := rt.(bannedUntil := None);
    }
  }
}
