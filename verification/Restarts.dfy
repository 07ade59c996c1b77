/** The daily cap across restarts of the process: each one forgets the day's scans, and the exact number
    that r processes can end in one day grows with r. */
module Restarts {
  import opened Base
  import opened RateLimiter
  import opened LimiterRuns
  import opened CapTightness

  // ---------------- a process started in the day ----------------

  /** The most scans a process started in the day can end in it. */
  function PerProcess(su: Setup, premium: bool): nat
    requires su.workers > 0
  {
    Max(0, Cap(su.cfg.maxGroupsPerDay, premium)) + su.workers - 1
  }

  /** What a run started at `since` has ended in the day of its start. */
  ghost predicate BornInv(su: Setup, since: real, s: World)
    requires su.workers > 0
  {
    var day := Slot(since, DAY);
    && since <= s.now && (forall i :: 0 <= i < |s.bumps| ==> since <= s.bumps[i])
    && (s.rt.dayDate.Some? ==> s.rt.dayDate.value >= day)
    && (s.rt.dayDate == Some(day) ==> CountIn(s.bumps, DAY, day) <= s.rt.groupsToday)
    && CountIn(s.bumps, DAY, day) <= PerProcess(su, s.rt.premium)
  }

  lemma {:induction false} AskKeepsBorn(su: Setup, since: real, s: World, step: Step)
    requires su.workers > 0 && CapInv(su, s) && BornInv(su, since, s)
    requires (step.Ask? || step.Take?) && Enabled(su, s, step)
    ensures BornInv(su, since, Apply(su, s, step))
  {
    AskRolls(su.cfg, s.rt, s.now, step.p);
    SlotMonotone(since, s.now, DAY);
  }

  lemma {:induction false} EndScanKeepsBorn(su: Setup, since: real, s: World, step: Step)
    requires su.workers > 0 && CapInv(su, s) && BornInv(su, since, s) && step.EndScan? && Enabled(su, s, step)
    ensures BornInv(su, since, Apply(su, s, step))
  {
    var day := Slot(since, DAY);
    CountAppend(s.bumps, s.now, DAY, day);
    assert |s.holders| >= 1;
    assert DayWindow(su, s);
  }

  lemma {:induction false} StepKeepsBorn(su: Setup, since: real, s: World, step: Step)
    requires su.workers > 0 && CapInv(su, s) && BornInv(su, since, s) && Enabled(su, s, step)
    ensures BornInv(su, since, Apply(su, s, step))
  {
    if step.Ask? || step.Take? {
      AskKeepsBorn(su, since, s, step);
    } else if step.EndScan? {
      EndScanKeepsBorn(su, since, s, step);
    } else if step.Flood? {
      FloodRolls(su.cfg, s.rt, s.now, step.seconds);
    } else if CapQuiet(step) {
      CapQuietStep(su, s, step);
    }
  }

  lemma {:induction false} RunKeepsBorn(su: Setup, since: real, s: World, steps: seq<Step>)
    requires su.workers > 0 && CapInv(su, s) && BornInv(su, since, s) && EnabledAll(su, s, steps)
    ensures BornInv(su, since, Exec(su, s, steps))
    decreases |steps|
  {
    if steps != [] {
      StepKeepsCaps(su, s, steps[0]);
      StepKeepsBorn(su, since, s, steps[0]);
      RunKeepsBorn(su, since, Apply(su, s, steps[0]), steps[1..]);
    }
  }

  lemma {:induction false} NoneEarlier(times: seq<real>, since: real, length: real, k: int)
    requires length > 0.0 && k < Slot(since, length)
    requires forall i :: 0 <= i < |times| ==> since <= times[i]
    ensures CountIn(times, length, k) == 0
  {
    if times != [] {
      SlotMonotone(since, times[|times| - 1], length);
      NoneEarlier(times[..|times| - 1], since, length, k);
    }
  }

  /** What one process can end in a day, by when it started and ended: W fewer than DailyCapBound if it
      started in that day. */
  lemma {:induction false} OneProcess(su: Setup, s0: World, s: World, day: int)
    requires su.workers > 0 && Reaches(su, s0, s)
    ensures CountIn(s.bumps, DAY, day) <= PerProcess(su, s0.rt.premium) + su.workers
    ensures Slot(s0.now, DAY) >= day ==> CountIn(s.bumps, DAY, day) <= PerProcess(su, s0.rt.premium)
    ensures Slot(s.now, DAY) < day ==> CountIn(s.bumps, DAY, day) == 0
    ensures s0.now <= s.now
  {
    var steps :| EnabledAll(su, s0, steps) && Exec(su, s0, steps) == s;
    FreshCaps(su, s0);
    RunKeepsCaps(su, s0, steps);
    RunKeepsBorn(su, s0.now, s0, steps);
    DailyCapBound(su, s0, s, day);
    if Slot(s0.now, DAY) > day {
      NoneEarlier(s.bumps, s0.now, DAY, day);
    }
    if Slot(s.now, DAY) < day {
      NoneLater(s.bumps, s.now, DAY, day);
    }
  }

  // ---------------- one process after another ----------------

  datatype Process = Process(start: World, end: World)

  /** The next process starts later, and is the same account. */
  predicate After(a: Process, b: Process) {
    a.end.now <= b.start.now && a.start.rt.premium == b.start.rt.premium
  }

  predicate AfterAt(ps: seq<Process>, i: nat) {
    i + 1 < |ps| ==> After(ps[i], ps[i + 1])
  }

  ghost predicate History(su: Setup, ps: seq<Process>) {
    && (forall i :: 0 <= i < |ps| ==> Reaches(su, ps[i].start, ps[i].end))
    && (forall i: nat :: AfterAt(ps, i))
  }

  /** The scans ended in a day, over all processes. */
  function DayTotal(ps: seq<Process>, day: int): nat
    decreases |ps|
  {
    if ps == [] then 0 else DayTotal(ps[..|ps| - 1], day) + CountIn(ps[|ps| - 1].end.bumps, DAY, day)
  }

  lemma {:induction false} Init(su: Setup, ps: seq<Process>)
    requires History(su, ps) && ps != []
    ensures History(su, ps[..|ps| - 1])
    ensures |ps| > 1 ==> After(ps[|ps| - 2], ps[|ps| - 1])
  {
    var init := ps[..|ps| - 1];
    forall i: nat
      ensures AfterAt(init, i)
    {
      assert AfterAt(ps, i);
    }
    if |ps| > 1 {
      assert AfterAt(ps, |ps| - 2);
    }
  }

  /** Processes that are over before the day end nothing in it. */
  lemma {:induction false} NoneBefore(su: Setup, ps: seq<Process>, day: int)
    requires su.workers > 0 && History(su, ps)
    requires ps != [] ==> Slot(ps[|ps| - 1].end.now, DAY) < day
    ensures DayTotal(ps, day) == 0
    decreases |ps|
  {
    if ps != [] {
      var n := |ps| - 1;
      Init(su, ps);
      OneProcess(su, ps[n].start, ps[n].end, day);
      if n > 0 {
        SlotMonotone(ps[n - 1].end.now, ps[n].end.now, DAY);
      }
      NoneBefore(su, ps[..n], day);
    }
  }

  /** r processes end at most r * (cap + W - 1) + W scans in one day: only the one that was running at
      midnight can end W more than its share. */
  lemma {:induction false} RestartsBound(su: Setup, ps: seq<Process>, day: int)
    requires su.workers > 0 && History(su, ps) && ps != []
    ensures DayTotal(ps, day) <= |ps| * PerProcess(su, ps[0].start.rt.premium) + su.workers
    ensures ps[|ps| - 1].start.rt.premium == ps[0].start.rt.premium
    decreases |ps|
  {
    var n := |ps| - 1;
    Init(su, ps);
    OneProcess(su, ps[n].start, ps[n].end, day);
    if n == 0 {
      assert DayTotal(ps[..0], day) == 0;
      return;
    }
    RestartsBound(su, ps[..n], day);
    var share := PerProcess(su, ps[0].start.rt.premium);
    assert |ps| * share == n * share + share;
    if Slot(ps[n].start.now, DAY) < day {
      SlotMonotone(ps[n - 1].end.now, ps[n].start.now, DAY);
      NoneBefore(su, ps[..n], day);
      assert n * share >= 0;
    }
  }

  /** What load_all reads is what persist_counters wrote. */
  predicate LoadsFrom(end: World, start: World) {
    && start.rt.groupsToday == end.rt.groupsToday && start.rt.messagesToday == end.rt.messagesToday
    && start.rt.profilesToday == end.rt.profilesToday && start.rt.searchesToday == end.rt.searchesToday
    && start.rt.floodsHour == end.rt.floodsHour
  }

  predicate LoadsAt(ps: seq<Process>, i: nat) {
    i + 1 < |ps| ==> LoadsFrom(ps[i].end, ps[i + 1].start)
  }

  /** One more process, started in the same day from the stored counters, fills the cap again. */
  lemma {:induction false} Again(workers: nat, cap: nat) returns (p: Process)
    requires workers > 0 && cap > 0
    ensures Reaches(Caps(workers, cap, cap + 2 * workers), p.start, p.end)
    ensures p.start == Loaded(DAY, cap + workers - 1) && p.end.now == DAY
    ensures LoadsFrom(p.end, p.start) && CountIn(p.end.bumps, DAY, 1) == cap + workers - 1
  {
    var su := Caps(workers, cap, cap + 2 * workers);
    var s0 := Loaded(DAY, cap + workers - 1);
    Start(su, DAY, cap + workers - 1);
    assert Slot(DAY, HOUR) == 24 && Slot(DAY, DAY) == 1;
    var s := Burst(su, s0, s0, cap - 1);
    p := Process(s0, s);
  }

  lemma {:induction false} Append(su: Setup, ps: seq<Process>, p: Process)
    requires History(su, ps) && Reaches(su, p.start, p.end)
    requires ps != [] ==> After(ps[|ps| - 1], p) && LoadsFrom(ps[|ps| - 1].end, p.start)
    requires forall i: nat :: LoadsAt(ps, i)
    ensures History(su, ps + [p]) && forall i: nat :: LoadsAt(ps + [p], i)
  {
    var longer := ps + [p];
    forall i | 0 <= i < |longer|
      ensures Reaches(su, longer[i].start, longer[i].end)
    {
      if i < |ps| {
        assert longer[i] == ps[i];
      }
    }
    forall i: nat
      ensures AfterAt(longer, i) && LoadsAt(longer, i)
    {
      assert AfterAt(ps, i) && LoadsAt(ps, i);
    }
  }

  lemma {:induction false} TotalSnoc(ps: seq<Process>, p: Process, day: int)
    ensures DayTotal(ps + [p], day) == DayTotal(ps, day) + CountIn(p.end.bumps, DAY, day)
  {
    assert (ps + [p])[..|ps|] == ps;
  }

  /** RestartsBound is exact, although every process loads the counters the one before it stored; so no
      number bounds the scans of a day over all histories. */
  lemma {:induction false} RestartsBoundIsMet(workers: nat, cap: nat, r: nat) returns (ps: seq<Process>)
    requires workers > 0 && cap > 0 && r > 0
    ensures var su := Caps(workers, cap, cap + 2 * workers);
            && History(su, ps) && |ps| == r && (forall i: nat :: LoadsAt(ps, i))
            && Cap(su.cfg.maxGroupsPerDay, ps[0].start.rt.premium) == cap
            && DayTotal(ps, 1) == r * PerProcess(su, ps[0].start.rt.premium) + workers
    ensures !ps[r - 1].start.rt.premium && ps[r - 1].end.now == DAY
    ensures LoadsFrom(ps[r - 1].end, Loaded(DAY, cap + workers - 1))
    decreases r
  {
    var su := Caps(workers, cap, cap + 2 * workers);
    if r == 1 {
      var s := FullDay(workers, cap);
      ps := [Process(Loaded(0.0, 0), s)];
      assert ps[..0] == [] && DayTotal([], 1) == 0;
    } else {
      var before := RestartsBoundIsMet(workers, cap, r - 1);
      var p := Again(workers, cap);
      Append(su, before, p);
      ps := before + [p];
      TotalSnoc(before, p, 1);
      RestartsBound(su, before, 1);
      assert r * (cap + workers - 1) == (r - 1) * (cap + workers - 1) + (cap + workers - 1);
    }
  }
}
