/** The whole pool over a process run: each call of get_available that hands out an account is a granted
    can_continue of that account's limiter, so every bound on limiters holds of the accounts handed out. */
module PoolRuns {
  import opened Base
  import opened RateLimiter
  import opened LimiterRuns
  import opened Accounts

  /** One limiter history per account; accounts[i].rt is the record of worlds[i]. */
  datatype State = State(now: real, accounts: seq<Account>, worlds: seq<World>, db: StateTable)

  datatype Step =
    | Wait(dt: real)
    | Get(w: nat, role: Role, env: Env, order: seq<nat>)     // a worker asks the pool for an account
    | On(i: nat, step: LimiterRuns.Step)                     // anything else that happens to one limiter
    | Link(i: nat, connected: bool, failures: nat)           // a connection comes, fails or goes

  /** Workers get accounts from the pool only, and time passes for all accounts at once. */
  predicate Local(step: LimiterRuns.Step) {
    !step.Tick? && !step.Take?
  }

  predicate Matching(s: State) {
    && |s.accounts| == |s.worlds|
    && forall i :: 0 <= i < |s.worlds| ==> s.worlds[i].now == s.now && s.worlds[i].rt == s.accounts[i].rt
  }

  predicate Free(s: State, w: nat) {
    forall i :: 0 <= i < |s.worlds| ==> w !in s.worlds[i].holders
  }

  ghost predicate Possible(su: Setup, s: State, step: Step) {
    && Matching(s)
    && match step
       case Wait(dt) => dt >= 0.0
       case Get(w, role, env, order) =>
         && w < su.workers && Free(s, w) && env.now == s.now
         && ValidEnv(su.cfg, s.accounts, env) && Ranks(s.accounts, role, s.now, order)
       case On(i, local) => i < |s.worlds| && Local(local) && Enabled(su, s.worlds[i], local)
       case Link(i, _, _) => i < |s.accounts|
  }

  function Held(world: World, rt: Runtime, w: nat, handedOut: bool): World {
    world.(rt := rt, holders := if handedOut then world.holders + {w} else world.holders)
  }

  ghost function Next(su: Setup, s: State, step: Step): State
    requires Possible(su, s, step)
  {
    match step
    case Wait(dt) =>
      s.(now := s.now + dt,
         worlds := seq(|s.worlds|, i requires 0 <= i < |s.worlds| => s.worlds[i].(now := s.now + dt)))
    case Get(w, role, env, order) =>
      var pick := TryInOrder(su.cfg, FilterAll(s.accounts, role, env), s.db, order, env);
      State(s.now, pick.pool,
            seq(|s.worlds|, i requires 0 <= i < |s.worlds| =>
              Held(s.worlds[i], if i < |pick.pool| then pick.pool[i].rt else s.worlds[i].rt, w,
                   pick.result == Some(i))),
            pick.db)
    case On(i, local) =>
      var world := Apply(su, s.worlds[i], local);
      s.(accounts := s.accounts[i := s.accounts[i].(rt := world.rt)], worlds := s.worlds[i := world])
    case Link(i, connected, failures) =>
      s.(accounts := s.accounts[i := s.accounts[i].(connected := connected, failures := failures)])
  }

  ghost predicate PossibleAll(su: Setup, s: State, steps: seq<Step>)
    decreases |steps|
  {
    steps == [] || (Possible(su, s, steps[0]) && PossibleAll(su, Next(su, s, steps[0]), steps[1..]))
  }

  ghost function Run(su: Setup, s: State, steps: seq<Step>): State
    requires PossibleAll(su, s, steps)
    decreases |steps|
  {
    if steps == [] then s else Run(su, Next(su, s, steps[0]), steps[1..])
  }

  /** To one limiter, a call of get_available is nothing, a look, a question, or a worker's grant. */
  lemma {:induction false} GetIsLocal(su: Setup, s: State, step: Step, i: nat) returns (local: Option<LimiterRuns.Step>)
    requires Possible(su, s, step) && step.Get? && i < |s.worlds|
    ensures var s' := Next(su, s, step);
            && |s'.accounts| == |s'.worlds| == |s.worlds| && s'.accounts[i].rt == s'.worlds[i].rt
            && (local.None? ==> s'.worlds[i] == s.worlds[i])
            && (local.Some? ==> Enabled(su, s.worlds[i], local.value)
                                && s'.worlds[i] == Apply(su, s.worlds[i], local.value))
            && (local.Some? && local.value.Take? <==> step.w in s'.worlds[i].holders)
  {
    var p := step.env.picks[i];
    var touch := EachTouched(su.cfg, s.accounts, s.db, step.role, step.env, step.order, i);
    match touch
    case Untouched => local := None;
    case LookedAt => local := Some(Peek(p));
    case Asked => local := Some(Ask(p));
    case HandedOut => local := Some(Take(step.w, p));
  }

  /** s0 is a freshly loaded pool; every limiter of s has a run of its own behind it. */
  ghost predicate Tracked(su: Setup, s0: State, s: State) {
    && Matching(s) && |s.worlds| == |s0.worlds|
    && forall i :: 0 <= i < |s.worlds| ==> Reaches(su, s0.worlds[i], s.worlds[i])
  }

  lemma {:induction false} StepKeepsTracked(su: Setup, s0: State, s: State, step: Step)
    requires Tracked(su, s0, s) && Possible(su, s, step)
    ensures Tracked(su, s0, Next(su, s, step))
  {
    var s' := Next(su, s, step);
    if step.Get? && s.worlds == [] {
      var pick := TryInOrder(su.cfg, FilterAll(s.accounts, step.role, step.env), s.db, step.order, step.env);
      EmptyPool(su.cfg, s.accounts, s.db, step.role, step.env, step.order);
    }
    forall i: nat | i < |s.worlds|
      ensures Reaches(su, s0.worlds[i], s'.worlds[i]) && s'.worlds[i].now == s'.now
      ensures |s'.accounts| == |s'.worlds| && s'.worlds[i].rt == s'.accounts[i].rt
    {
      match step
      case Wait(dt) => Extend(su, s0.worlds[i], s.worlds[i], Tick(dt));
      case Get(_, _, _, _) =>
        var local := GetIsLocal(su, s, step, i);
        if local.Some? {
          Extend(su, s0.worlds[i], s.worlds[i], local.value);
        }
      case On(j, local) =>
        if i == j {
          Extend(su, s0.worlds[i], s.worlds[i], local);
        }
      case Link(_, _, _) =>
    }
  }

  lemma {:induction false} EmptyPool(cfg: Config, pool: seq<Account>, db: StateTable, role: Role, env: Env,
      order: seq<nat>)
    requires pool == [] && ValidEnv(cfg, pool, env) && Orders(pool, order)
    ensures TryInOrder(cfg, FilterAll(pool, role, env), db, order, env).pool == []
  {
  }

  lemma {:induction false} RunKeepsTracked(su: Setup, s0: State, s: State, steps: seq<Step>)
    requires Tracked(su, s0, s) && PossibleAll(su, s, steps)
    ensures Tracked(su, s0, Run(su, s, steps))
    decreases |steps|
  {
    if steps != [] {
      StepKeepsTracked(su, s0, s, steps[0]);
      RunKeepsTracked(su, s0, Next(su, s, steps[0]), steps[1..]);
    }
  }

  /** The pool as loaded. */
  ghost predicate FreshPool(su: Setup, s: State) {
    Matching(s) && forall i :: 0 <= i < |s.worlds| ==> Fresh(su, s.worlds[i])
  }

  lemma {:induction false} FreshIsTracked(su: Setup, s: State)
    requires FreshPool(su, s)
    ensures Tracked(su, s, s)
  {
    forall i | 0 <= i < |s.worlds|
      ensures Reaches(su, s.worlds[i], s.worlds[i])
    {
      assert EnabledAll(su, s.worlds[i], []) && Exec(su, s.worlds[i], []) == s.worlds[i];
    }
  }

  /** Over every run of the pool, no account handed out by get_available passes the bounds of
      HourlyCapBound and DailyCapBound, however its calls interleave. */
  lemma {:induction false} PoolCapBounds(su: Setup, s0: State, steps: seq<Step>, i: nat, hour: int, day: int)
    requires su.workers > 0 && FreshPool(su, s0) && PossibleAll(su, s0, steps) && i < |s0.worlds|
    ensures var s := Run(su, s0, steps);
            && |s.accounts| == |s.worlds| == |s0.worlds| && s.accounts[i].rt == s.worlds[i].rt
            && var capHour := Max(0, Cap(su.cfg.maxGroupsPerHour, s0.worlds[i].rt.premium));
               var capDay := Max(0, Cap(su.cfg.maxGroupsPerDay, s0.worlds[i].rt.premium));
               && s.accounts[i].rt.groupsHour <= capHour + su.workers - 1
               && CountIn(s.worlds[i].bumps, HOUR, hour) <= capHour + 2 * su.workers - 1
               && CountIn(s.worlds[i].bumps, DAY, day) <= capDay + 2 * su.workers - 1
  {
    FreshIsTracked(su, s0);
    RunKeepsTracked(su, s0, s0, steps);
    var s := Run(su, s0, steps);
    HourlyCapBound(su, s0.worlds[i], s.worlds[i], hour);
    DailyCapBound(su, s0.worlds[i], s.worlds[i], day);
  }
}
