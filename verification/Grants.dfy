/** What the limiter decides, in plain arithmetic on the clock, the settings and the record. */
module Grants {
  import opened Base
  import opened RateLimiter

  // ---------------- the clock and the caps ----------------

  /** now lies in the k-th stretch of `length` seconds. */
  predicate InSlot(now: real, length: real, k: int) {
    k as real * length <= now < (k + 1) as real * length
  }

  lemma {:induction false} SlotIs(now: real, length: real, k: int)
    requires length > 0.0
    ensures InSlot(now, length, Slot(now, length))
    ensures InSlot(now, length, k) <==> Slot(now, length) == k
  {
    var q := now / length;
    var f := q.Floor;
    assert now == q * length;
    assert f as real * length <= q * length by {
      Scale(f as real, q, length);
    }
    assert q * length < (f + 1) as real * length by {
      ScaleStrictly(q, (f + 1) as real, length);
    }
    if InSlot(now, length, k) && k != f {
      if k < f {
        Scale((k + 1) as real, f as real, length);
      } else {
        Scale((f + 1) as real, k as real, length);
      }
    }
  }

  lemma {:induction false} Scale(a: real, b: real, x: real)
    requires a <= b && x > 0.0
    ensures a * x <= b * x
  {
    var d := b - a;
    assert b * x == a * x + d * x;
  }

  lemma {:induction false} ScaleStrictly(a: real, b: real, x: real)
    requires a < b && x > 0.0
    ensures a * x < b * x
  {
    var d := b - a;
    assert d * x > 0.0;
    assert b * x == a * x + d * x;
  }

  /** cap is max, or one and a half times max with the fraction dropped. */
  predicate IsCap(cap: int, max: int, premium: bool) {
    if !premium then cap == max
    else if max >= 0 then 2 * cap <= 3 * max < 2 * cap + 2
    else 2 * cap - 2 < 3 * max <= 2 * cap
  }

  lemma {:induction false} CapIs(cap: int, max: int, premium: bool)
    ensures IsCap(cap, max, premium) <==> cap == Cap(max, premium)
  {
  }

  // ---------------- can_continue ----------------

  /** The hour of the day, counted in whole hours since the epoch, is in the pause [lo, hi); a pause with
      lo > hi runs over midnight. */
  predicate Paused(night: (int, int), hour: int, day: int) {
    var h := hour - 24 * day;
    if night.0 <= night.1 then night.0 <= h && h < night.1 else night.0 <= h || h < night.1
  }

  function Today(rt: Runtime, day: int): int {
    if rt.dayDate == Some(day) then rt.groupsToday else 0
  }

  function ThisHour(rt: Runtime, hour: int): int {
    if rt.hourSlot == hour then rt.groupsHour else 0
  }

  /** The day and the hour of a moment, each given by its bounds. */
  predicate Moment(now: real, day: int, hour: int) {
    InSlot(now, 86400.0, day) && InSlot(now, 3600.0, hour)
  }

  lemma {:induction false} MomentIs(now: real, day: int, hour: int)
    requires Moment(now, day, hour)
    ensures Slot(now, DAY) == day && Slot(now, HOUR) == hour && HourOfDay(now) == hour - 24 * day
  {
    SlotIs(now, 86400.0, day);
    SlotIs(now, 3600.0, hour);
    assert (24 * day) as real * 3600.0 == day as real * 86400.0;
    assert (24 * (day + 1)) as real * 3600.0 == (day + 1) as real * 86400.0;
    assert 24 * day < hour + 1 && hour < 24 * (day + 1);
  }

  /** The answer, first reason first. */
  lemma {:induction false} AnswerIs(cfg: Config, rt: Runtime, now: real, p: Picks, day: int, hour: int, dayCap: int,
      hourCap: int)
    requires Moment(now, day, hour)
    requires IsCap(dayCap, cfg.maxGroupsPerDay, rt.premium) && IsCap(hourCap, cfg.maxGroupsPerHour, rt.premium)
    ensures CanContinue(cfg, rt, now, p).1 ==
            if rt.bannedUntil.Some? && now < rt.bannedUntil.value then Banned
            else if rt.restUntil.Some? && now < rt.restUntil.value then Resting
            else if Paused(cfg.nightPause, hour, day) then NightPause
            else if Today(rt, day) >= dayCap then DailyCap
            else if ThisHour(rt, hour) >= hourCap then HourlyCap
            else if rt.restUntil.None? && rt.workStartedAt.Some?
                    && now >= rt.workStartedAt.value + rt.workDuration as real then RestCycle
            else Granted
  {
    MomentIs(now, day, hour);
    CapIs(dayCap, cfg.maxGroupsPerDay, rt.premium);
    CapIs(hourCap, cfg.maxGroupsPerHour, rt.premium);
    assert InNightPause(cfg, now) == Paused(cfg.nightPause, hour, day);
  }

  /** No grant in the night pause, whatever the record. */
  lemma {:induction false} NightRefuses(cfg: Config, rt: Runtime, now: real, p: Picks, day: int, h: int)
    requires InSlot(now - h as real * 3600.0, 86400.0, day) && 0 <= h < 24
    requires InSlot(now, 3600.0, 24 * day + h)
    requires var (lo, hi) := cfg.nightPause;
             (lo <= hi && lo <= h < hi) || (lo > hi && (h >= lo || h < hi))
    ensures !CanContinue(cfg, rt, now, p).1.Granted?
  {
    assert (24 * day + h) as real * 3600.0 == day as real * 86400.0 + h as real * 3600.0;
    assert (24 * day + h + 1) as real * 3600.0 == day as real * 86400.0 + (h + 1) as real * 3600.0;
    CapIs(Cap(cfg.maxGroupsPerDay, rt.premium), cfg.maxGroupsPerDay, rt.premium);
    CapIs(Cap(cfg.maxGroupsPerHour, rt.premium), cfg.maxGroupsPerHour, rt.premium);
    AnswerIs(cfg, rt, now, p, day, 24 * day + h, Cap(cfg.maxGroupsPerDay, rt.premium),
             Cap(cfg.maxGroupsPerHour, rt.premium));
  }

  /** The counters the call leaves: each group belongs to its slot, and floods are forgotten with it only
      when the last one is older than the reset time. */
  lemma {:induction false} CountersAfter(cfg: Config, rt: Runtime, now: real, p: Picks, day: int, hour: int)
    requires Moment(now, day, hour)
    ensures var rt' := CanContinue(cfg, rt, now, p).0;
            && rt'.dayDate == Some(day) && rt'.hourSlot == hour
            && rt'.groupsToday == Today(rt, day) && rt'.groupsHour == ThisHour(rt, hour)
            && (rt.dayDate == Some(day) ==>
                  && rt'.membersToday == rt.membersToday && rt'.messagesToday == rt.messagesToday
                  && rt'.profilesToday == rt.profilesToday && rt'.searchesToday == rt.searchesToday)
            && (rt.dayDate != Some(day) ==>
                  rt'.membersToday == rt'.messagesToday == rt'.profilesToday == rt'.searchesToday == 0)
            && ForgetsFloods(cfg, rt, rt', now, hour)
            && rt'.lastFloodAt == rt.lastFloodAt && rt'.lastActionAt == rt.lastActionAt && rt'.premium == rt.premium
  {
    MomentIs(now, day, hour);
    CountersAreRolled(cfg, rt, now, p);
  }

  lemma {:induction false} CountersAreRolled(cfg: Config, rt: Runtime, now: real, p: Picks)
    ensures var rolled := RollHour(cfg, RollDay(rt, now), now);
            CanContinue(cfg, rt, now, p).0 ==
            rolled.(bannedUntil := CanContinue(cfg, rt, now, p).0.bannedUntil,
                    restUntil := CanContinue(cfg, rt, now, p).0.restUntil,
                    workStartedAt := CanContinue(cfg, rt, now, p).0.workStartedAt,
                    workDuration := CanContinue(cfg, rt, now, p).0.workDuration)
  {
  }

  predicate ForgetsFloods(cfg: Config, rt: Runtime, rt': Runtime, now: real, hour: int) {
    if hour != rt.hourSlot && rt.lastFloodAt.Some? && now > rt.lastFloodAt.value + cfg.floodResetHours as real * 3600.0
    then rt'.floodsHour == 0 && rt'.backoff == 1.0
    else rt'.floodsHour == rt.floodsHour && rt'.backoff == rt.backoff
  }

  /** Bans and rests after the call: deadlines that have passed are dropped in the order they are looked at,
      and a finished shift starts a rest. */
  lemma {:induction false} DeadlinesAfter(cfg: Config, rt: Runtime, now: real, p: Picks)
    ensures var (rt', answer) := CanContinue(cfg, rt, now, p);
            && (answer.Banned? ==> rt'.bannedUntil == rt.bannedUntil)
            && (!answer.Banned? ==> rt'.bannedUntil.None?)
            && (answer.Banned? || answer.Resting? ==>
                  && rt'.restUntil == rt.restUntil && rt'.workStartedAt == rt.workStartedAt
                  && rt'.workDuration == rt.workDuration)
            && (answer.RestCycle? ==>
                  && rt'.restUntil == Some(now + p.rest as real * 60.0) && rt'.workStartedAt.None?
                  && rt'.workDuration == rt.workDuration)
            && (!answer.Banned? && !answer.Resting? && !answer.RestCycle? ==>
                  && rt'.restUntil.None?
                  && rt'.workStartedAt == (if rt.restUntil.Some? then None else rt.workStartedAt)
                  && rt'.workDuration == (if rt.restUntil.Some? then p.work * 60 else rt.workDuration))
  {
  }

  /** The checks get_available makes on their own do not change what can_continue then answers and leaves. */
  lemma {:induction false} CheckedFirst(cfg: Config, rt: Runtime, now: real, p: Picks)
    requires !BanActive(rt, now) && !RestActive(rt, now)
    ensures CanContinue(cfg, AfterRestCheck(AfterBanCheck(rt, now), now, p), now, p) == CanContinue(cfg, rt, now, p)
  {
  }

  /** Asking only about the ban or the rest keeps a deadline that is ahead, drops one that has passed, and
      with a passed rest ends the shift and draws the next. */
  lemma {:induction false} LooksAre(rt: Runtime, now: real, p: Picks)
    ensures var ahead := rt.bannedUntil.Some? && now < rt.bannedUntil.value;
            AfterBanCheck(rt, now) == if ahead then rt else rt.(bannedUntil := None)
    ensures var rt' := AfterRestCheck(rt, now, p);
            && (rt.restUntil.None? || now < rt.restUntil.value ==> rt' == rt)
            && (rt.restUntil.Some? && rt.restUntil.value <= now ==>
                  rt' == rt.(restUntil := None, workStartedAt := None, workDuration := 60 * p.work))
  {
  }

  // ---------------- throttle ----------------

  /** A throttle sleeps until the delay has passed since the last action, and no longer; the delay is the
      pick times the backoff, at most 120 seconds. */
  lemma {:induction false} ThrottleWaits(rt: Runtime, now: real, pick: real, jitter: real)
    requires rt.lastActionAt.Some? && rt.lastActionAt.value <= now
    ensures var wake := WakeAt(rt, now, pick, jitter);
            var last := rt.lastActionAt.value;
            && now <= wake && (wake <= now + 120.0 || pick * rt.backoff > 120.0)
            && (wake >= last + pick * rt.backoff || wake >= last + 120.0)
            && (wake == now || (wake <= last + pick * rt.backoff && wake <= last + 120.0))
  {
  }

  /** The first action only waits for a random part of a second. */
  lemma {:induction false} FirstThrottle(rt: Runtime, now: real, pick: real, jitter: real)
    requires rt.lastActionAt.None? && ValidJitter(rt, pick, jitter)
    ensures now <= WakeAt(rt, now, pick, jitter) <= now + 1.0
    ensures 0.0 <= pick * rt.backoff ==> WakeAt(rt, now, pick, jitter) <= now + pick * rt.backoff
    ensures pick * rt.backoff <= 0.0 ==> WakeAt(rt, now, pick, jitter) == now
    ensures WakeAt(rt, now, pick, jitter) == now + jitter
  {
  }

  lemma {:induction false} JittersAre(rt: Runtime, pick: real, jitter: real)
    ensures ValidJitter(rt, pick, jitter)
            <==> jitter == 0.0 || (0.0 <= jitter && jitter <= 1.0 && jitter <= pick * rt.backoff)
  {
  }

  /** Which settings a pick is drawn from. */
  lemma {:induction false} DelaysAre(cfg: Config, op: Operation, pick: real)
    ensures ValidDelay(cfg, op, pick) <==>
            match op
            case GroupOp => Between(cfg.delayGroups.0, pick, cfg.delayGroups.1)
            case MessagesBatch => pick == cfg.delayMessages
            case Profile => Between(cfg.delayProfiles.0, pick, cfg.delayProfiles.1)
            case Search => Between(cfg.delaySearches.0, pick, cfg.delaySearches.1)
            case OtherOp => pick == 0.0
  {
  }

  /** x lies between a and b, whichever is the larger. */
  predicate Between(a: real, x: real, b: real) {
    a <= x <= b || b <= x <= a
  }

  // ---------------- floods, bans, counters ----------------

  /** A flood is counted after the hour has rolled. A short one raises the backoff and, from the maximum on,
      sets a pause of an hour; a long one only bans. */
  lemma {:induction false} FloodEffect(cfg: Config, rt: Runtime, now: real, seconds: int, day: int, hour: int)
    requires Moment(now, day, hour)
    ensures var rt' := Flooded(cfg, rt, now, seconds);
            var forgotten := hour != rt.hourSlot && rt.lastFloodAt.Some?
                             && now > rt.lastFloodAt.value + cfg.floodResetHours as real * 3600.0;
            var floods := if forgotten then 1 else rt.floodsHour + 1;
            var backoff := if forgotten then 1.0 else rt.backoff;
            && rt'.floodsHour == floods && rt'.lastFloodAt == Some(now)
            && rt'.hourSlot == hour && rt'.groupsHour == ThisHour(rt, hour)
            && (seconds >= cfg.floodLongThreshold ==>
                  && rt'.bannedUntil == Some(now + seconds as real)
                  && rt'.restUntil == rt.restUntil && rt'.backoff == backoff)
            && (seconds < cfg.floodLongThreshold ==>
                  && rt'.bannedUntil == rt.bannedUntil && rt'.backoff == backoff * cfg.floodMultiplier
                  && rt'.restUntil == (if floods >= cfg.maxFloods then Some(now + 3600.0) else rt.restUntil))
            && rt'.dayDate == rt.dayDate && rt'.groupsToday == rt.groupsToday
            && rt'.workStartedAt == rt.workStartedAt && rt'.workDuration == rt.workDuration
            && rt'.lastActionAt == rt.lastActionAt
  {
    MomentIs(now, day, hour);
  }

  /** A bump adds to one daily counter; groups also count in the hour. */
  lemma {:induction false} BumpEffect(rt: Runtime, field: Counter, n: int)
    ensures var rt' := Bumped(rt, field, n);
            && rt'.groupsToday - rt.groupsToday == (if field.GroupsToday? then n else 0)
            && rt'.groupsHour - rt.groupsHour == (if field.GroupsToday? then n else 0)
            && rt'.membersToday - rt.membersToday == (if field.MembersToday? then n else 0)
            && rt'.messagesToday - rt.messagesToday == (if field.MessagesToday? then n else 0)
            && rt'.profilesToday - rt.profilesToday == (if field.ProfilesToday? then n else 0)
            && rt'.searchesToday - rt.searchesToday == (if field.SearchesToday? then n else 0)
            && rt' == rt.(groupsToday := rt'.groupsToday, groupsHour := rt'.groupsHour,
                          membersToday := rt'.membersToday, messagesToday := rt'.messagesToday,
                          profilesToday := rt'.profilesToday, searchesToday := rt'.searchesToday)
  {
  }
}
