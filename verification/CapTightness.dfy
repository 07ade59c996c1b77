/** The bounds of LimiterRuns cannot be improved: for every pool size and every cap some run ends
    cap + 2W - 1 scans within one clock hour, and some run within one day. */
module CapTightness {
  import opened Base
  import opened RateLimiter
  import opened LimiterRuns

  function Caps(workers: nat, day: nat, hour: nat): Setup {
    Setup(Config((0.0, 0.0), (0.0, 0.0), (0.0, 0.0), 0.0, day, hour, 3, 1.0, 1, 300, (100, 100), (0, 0), (0, 0)),
          workers)
  }

  /** An account loaded with a stored groups_today. */
  function Loaded(now: real, groups: int): World {
    World(now, Runtime(false, groups, 0, 0, 0, 0, 0, 0, 0, None, 1.0, None, 6000, None, None, None, None),
          {}, None, [], [])
  }

  /** Nothing but the caps can refuse this account. */
  ghost predicate Calm(su: Setup, s0: World, s: World) {
    && su.cfg.maxGroupsPerDay >= 0 && su.cfg.maxGroupsPerHour >= 0
    && su == Caps(su.workers, su.cfg.maxGroupsPerDay, su.cfg.maxGroupsPerHour)
    && Reaches(su, s0, s)
    && s.rt.workStartedAt.None? && s.rt.restUntil.None? && s.rt.bannedUntil.None? && !s.rt.premium
    && s.rt.messagesToday == s.rt.profilesToday == s.rt.searchesToday == s.rt.floodsHour == 0
  }

  function ThisHour(s: World): int {
    if s.rt.hourSlot == Slot(s.now, HOUR) then s.rt.groupsHour else 0
  }

  function Today(s: World): int {
    if s.rt.dayDate == Some(Slot(s.now, DAY)) then s.rt.groupsToday else 0
  }

  /** The room both caps leave for k more scans. */
  predicate Room(su: Setup, s: World, k: nat) {
    ThisHour(s) + k <= su.cfg.maxGroupsPerHour && Today(s) + k <= su.cfg.maxGroupsPerDay
  }

  predicate Rolled(s: World) {
    s.rt.hourSlot == Slot(s.now, HOUR) && s.rt.dayDate == Some(Slot(s.now, DAY))
  }

  /** s' is s later in the same instant, with n more scans ended in this hour and day. */
  ghost predicate Ended(s: World, s': World, n: nat) {
    && s'.now == s.now
    && CountIn(s'.bumps, HOUR, Slot(s.now, HOUR)) == CountIn(s.bumps, HOUR, Slot(s.now, HOUR)) + n
    && CountIn(s'.bumps, DAY, Slot(s.now, DAY)) == CountIn(s.bumps, DAY, Slot(s.now, DAY)) + n
  }

  lemma {:induction false} TakeOne(su: Setup, s0: World, s: World, w: nat) returns (s': World)
    requires Calm(su, s0, s) && w < su.workers && w !in s.holders && Room(su, s, 1)
    ensures Calm(su, s0, s') && Ended(s, s', 0) && s'.bumps == s.bumps && s'.holders == s.holders + {w}
    ensures Rolled(s') && ThisHour(s') == ThisHour(s) && Today(s') == Today(s)
  {
    var step := Take(w, Picks(100, 0));
    AskRolls(su.cfg, s.rt, s.now, step.p);
    assert CanContinue(su.cfg, s.rt, s.now, step.p).1.Granted?;
    Extend(su, s0, s, step);
    s' := Apply(su, s, step);
  }

  lemma {:induction false} EndOne(su: Setup, s0: World, s: World, w: nat) returns (s': World)
    requires Calm(su, s0, s) && w in s.holders
    ensures Calm(su, s0, s') && Ended(s, s', 1) && s'.holders == s.holders - {w}
    ensures s'.rt.hourSlot == s.rt.hourSlot && s'.rt.dayDate == s.rt.dayDate
    ensures s'.rt.groupsHour == s.rt.groupsHour + 1 && s'.rt.groupsToday == s.rt.groupsToday + 1
  {
    Extend(su, s0, s, EndScan(w));
    s' := Apply(su, s, EndScan(w));
    CountAppend(s.bumps, s.now, HOUR, Slot(s.now, HOUR));
    CountAppend(s.bumps, s.now, DAY, Slot(s.now, DAY));
  }

  function Below(n: nat): (below: set<nat>)
    ensures forall i: nat :: i in below <==> i < n
  {
    if n == 0 then {} else Below(n - 1) + {n - 1}
  }

  /** Workers n - 1 down to 0 are all granted the account before any of them finishes. */
  lemma {:induction false} TakeAll(su: Setup, s0: World, s: World, n: nat) returns (s': World)
    requires Calm(su, s0, s) && n <= su.workers && s.holders !! Below(n) && Room(su, s, 1)
    ensures Calm(su, s0, s') && Ended(s, s', 0) && s'.bumps == s.bumps && s'.holders == s.holders + Below(n)
    ensures ThisHour(s') == ThisHour(s) && Today(s') == Today(s)
    ensures if n > 0 then Rolled(s') else s' == s
    decreases n
  {
    s' := s;
    if n > 0 {
      assert Below(n) == Below(n - 1) + {n - 1};
      s' := TakeOne(su, s0, s, n - 1);
      s' := TakeAll(su, s0, s', n - 1);
    }
  }

  lemma {:induction false} EndAll(su: Setup, s0: World, s: World, n: nat) returns (s': World)
    requires Calm(su, s0, s) && s.holders == Below(n)
    ensures Calm(su, s0, s') && Ended(s, s', n) && s'.holders == {}
    ensures s'.rt.hourSlot == s.rt.hourSlot && s'.rt.dayDate == s.rt.dayDate
    ensures s'.rt.groupsHour == s.rt.groupsHour + n && s'.rt.groupsToday == s.rt.groupsToday + n
    decreases n
  {
    s' := s;
    if n > 0 {
      s' := EndOne(su, s0, s, n - 1);
      assert Below(n) - {n - 1} == Below(n - 1);
      s' := EndAll(su, s0, s', n - 1);
    }
  }

  /** Worker 0 takes and finishes k scans in a row. */
  lemma {:induction false} Cycle(su: Setup, s0: World, s: World, k: nat) returns (s': World)
    requires Calm(su, s0, s) && s.holders == {} && su.workers > 0 && Room(su, s, k)
    ensures Calm(su, s0, s') && Ended(s, s', k) && s'.holders == {}
    ensures ThisHour(s') == ThisHour(s) + k && Today(s') == Today(s) + k
    decreases k
  {
    s' := s;
    if k > 0 {
      s' := TakeOne(su, s0, s, 0);
      s' := EndOne(su, s0, s', 0);
      assert s'.holders == {};
      s' := Cycle(su, s0, s', k - 1);
    }
  }

  lemma {:induction false} Start(su: Setup, now: real, groups: int)
    requires su.cfg.maxGroupsPerDay >= 0 && su.cfg.maxGroupsPerHour >= 0 && now >= 0.0
    requires su == Caps(su.workers, su.cfg.maxGroupsPerDay, su.cfg.maxGroupsPerHour)
    ensures Calm(su, Loaded(now, groups), Loaded(now, groups))
  {
    var s := Loaded(now, groups);
    assert InRange(100, su.cfg.workMinutes);
    assert EnabledAll(su, s, []) && Exec(su, s, []) == s;
  }

  /** All workers are granted the account in the first hour, and dt passes. */
  lemma {:induction false} HoldAcross(su: Setup, dt: real) returns (s: World)
    requires su.cfg.maxGroupsPerDay > 0 && su.cfg.maxGroupsPerHour > 0 && dt >= 0.0
    requires su == Caps(su.workers, su.cfg.maxGroupsPerDay, su.cfg.maxGroupsPerHour) && su.workers > 0
    ensures Calm(su, Loaded(0.0, 0), s) && s.now == dt && s.holders == Below(su.workers) && s.bumps == []
    ensures s.rt.hourSlot == 0 && s.rt.dayDate == Some(0) && s.rt.groupsToday == 0
  {
    Start(su, 0.0, 0);
    s := TakeAll(su, Loaded(0.0, 0), Loaded(0.0, 0), su.workers);
    assert Slot(0.0, HOUR) == 0 && Slot(0.0, DAY) == 0;
    Extend(su, Loaded(0.0, 0), s, Tick(dt));
    s := s.(now := dt);
  }

  /** k scans run one by one, and after them all workers are granted the account at once. */
  lemma {:induction false} Burst(su: Setup, s0: World, s: World, k: nat) returns (s': World)
    requires Calm(su, s0, s) && su.workers > 0 && s.holders == {} && Room(su, s, k + 1)
    ensures Calm(su, s0, s') && Ended(s, s', k + su.workers) && Rolled(s')
    ensures s'.rt.groupsHour == ThisHour(s) + k + su.workers && s'.rt.groupsToday == Today(s) + k + su.workers
  {
    var s1 := Cycle(su, s0, s, k);
    var s2 := TakeAll(su, s0, s1, su.workers);
    assert s2.holders == Below(su.workers);
    s' := EndAll(su, s0, s2, su.workers);
  }

  /** All workers end late; then a burst follows. */
  lemma {:induction false} Rush(su: Setup, s0: World, s: World, k: nat) returns (s': World)
    requires Calm(su, s0, s) && su.workers > 0 && s.holders == Below(su.workers)
    requires s.rt.hourSlot != Slot(s.now, HOUR) && k < su.cfg.maxGroupsPerHour
    requires var late := if s.rt.dayDate == Some(Slot(s.now, DAY)) then s.rt.groupsToday + su.workers else 0;
             late + k < su.cfg.maxGroupsPerDay
    ensures Calm(su, s0, s') && Ended(s, s', k + 2 * su.workers) && Rolled(s') && s'.rt.groupsHour == k + su.workers
    ensures s.rt.dayDate != Some(Slot(s.now, DAY)) ==> s'.rt.groupsToday == k + su.workers
  {
    var s1 := EndAll(su, s0, s, su.workers);
    s' := Burst(su, s0, s1, k);
  }

  /** For every pool and cap, both bounds of HourlyCapBound are met at once. */
  lemma {:induction false} HourlyBoundIsMet(workers: nat, cap: nat) returns (su: Setup, s: World)
    requires workers > 0 && cap > 0
    ensures su.workers == workers && Cap(su.cfg.maxGroupsPerHour, Loaded(0.0, 0).rt.premium) == cap
    ensures Reaches(su, Loaded(0.0, 0), s) && s.rt.groupsHour == cap + workers - 1
    ensures CountIn(s.bumps, HOUR, 1) == cap + 2 * workers - 1
  {
    su := Caps(workers, cap + 2 * workers, cap);
    var s1 := HoldAcross(su, HOUR);
    assert Slot(HOUR, HOUR) == 1 && Slot(HOUR, DAY) == 0;
    s := Rush(su, Loaded(0.0, 0), s1, cap - 1);
  }

  /** A run across midnight that ends cap + 2W - 1 scans on the second day. */
  lemma {:induction false} FullDay(workers: nat, cap: nat) returns (s: World)
    requires workers > 0 && cap > 0
    ensures var su := Caps(workers, cap, cap + 2 * workers);
            Calm(su, Loaded(0.0, 0), s) && s.now == DAY && Rolled(s) && s.rt.groupsToday == cap + workers - 1
    ensures CountIn(s.bumps, DAY, 1) == cap + 2 * workers - 1
  {
    var su := Caps(workers, cap, cap + 2 * workers);
    var s1 := HoldAcross(su, DAY);
    assert Slot(DAY, HOUR) == 24 && Slot(DAY, DAY) == 1;
    s := Rush(su, Loaded(0.0, 0), s1, cap - 1);
  }

  /** For every pool and cap, both bounds of DailyCapBound are met at once. */
  lemma {:induction false} DailyBoundIsMet(workers: nat, cap: nat) returns (su: Setup, s: World)
    requires workers > 0 && cap > 0
    ensures su.workers == workers && Cap(su.cfg.maxGroupsPerDay, Loaded(0.0, 0).rt.premium) == cap
    ensures Reaches(su, Loaded(0.0, 0), s) && s.rt.dayDate.Some? && s.rt.groupsToday == cap + workers - 1
    ensures CountIn(s.bumps, DAY, 1) == cap + 2 * workers - 1
  {
    su := Caps(workers, cap, cap + 2 * workers);
    s := FullDay(workers, cap);
  }
}
