/** Fairness of least-recently-used selection over every run of get_available calls, throttles and
    anything else that happens to the accounts in between. */
module Rotation {
  import opened Base
  import opened RateLimiter
  import opened Accounts

  // ---------------- answered calls ----------------

  /** One call that handed out an account: the last-action times it saw, who could have been handed
      out, and who was. */
  datatype Turn = Turn(keys: seq<real>, eligible: set<nat>, result: nat)

  predicate Fair(t: Turn) {
    && t.result < |t.keys| && t.result in t.eligible
    && forall j :: j in t.eligible ==> j < |t.keys| && t.keys[t.result] <= t.keys[j]
  }

  /** Between two turns keys only grow, and the returned account was throttled at a moment later
      than any action recorded before. */
  predicate Follows(t: Turn, u: Turn) {
    && t.result < |t.keys| == |u.keys|
    && (forall j :: 0 <= j < |t.keys| ==> u.keys[j] >= t.keys[j])
    && (forall j :: 0 <= j < |t.keys| ==> u.keys[t.result] > t.keys[j])
  }

  predicate FollowsAt(ts: seq<Turn>, i: nat) {
    i + 1 < |ts| ==> Follows(ts[i], ts[i + 1])
  }

  ghost predicate Turns(ts: seq<Turn>, size: nat) {
    && (forall i :: 0 <= i < |ts| ==> Fair(ts[i]) && |ts[i].keys| == size)
    && (forall i: nat :: FollowsAt(ts, i))
  }

  /** Turn j returns another account than b, and nobody throttles b until the next turn. */
  predicate LeftAlone(ts: seq<Turn>, b: nat, j: nat) {
    j + 1 < |ts| && b < |ts[j].keys| == |ts[j + 1].keys| && ts[j].result != b && ts[j + 1].keys[b] == ts[j].keys[b]
  }

  /** After x is returned at turn i, x stays behind b as long as b is left alone. */
  lemma {:induction false} StaysBehind(ts: seq<Turn>, size: nat, b: nat, i: nat, k: nat)
    requires Turns(ts, size) && i < k < |ts| && b < size
    requires forall j: nat :: i <= j < k ==> LeftAlone(ts, b, j)
    ensures ts[k].keys[ts[i].result] > ts[k].keys[b]
    decreases k - i
  {
    assert Fair(ts[i]) && FollowsAt(ts, k - 1) && LeftAlone(ts, b, k - 1);
    if k > i + 1 {
      StaysBehind(ts, size, b, i, k - 1);
    }
  }

  /** No account is returned twice while another eligible one waits untouched. */
  lemma {:induction false} NoOvertaking(ts: seq<Turn>, size: nat, b: nat, i: nat, k: nat)
    requires Turns(ts, size) && i < k < |ts| && b in ts[k].eligible
    requires forall j: nat :: i <= j < k ==> LeftAlone(ts, b, j)
    ensures ts[k].result != ts[i].result
  {
    assert Fair(ts[k]);
    StaysBehind(ts, size, b, i, k);
  }

  function Results(ts: seq<Turn>, i: nat, k: nat): set<nat>
    requires i <= k <= |ts|
  {
    if i == k then {} else Results(ts, i, k - 1) + {ts[k - 1].result}
  }

  lemma {:induction false} ResultOf(ts: seq<Turn>, i: nat, k: nat, r: nat) returns (j: nat)
    requires i <= k <= |ts| && r in Results(ts, i, k)
    ensures i <= j < k && ts[j].result == r
  {
    if ts[k - 1].result == r {
      j := k - 1;
    } else {
      j := ResultOf(ts, i, k - 1, r);
    }
  }

  lemma {:induction false} NewResult(ts: seq<Turn>, size: nat, b: nat, i: nat, k: nat)
    requires Turns(ts, size) && i <= k < |ts| && b in ts[k].eligible
    requires forall j: nat :: i <= j < k ==> LeftAlone(ts, b, j)
    ensures ts[k].result !in Results(ts, i, k)
  {
    if ts[k].result in Results(ts, i, k) {
      var j := ResultOf(ts, i, k, ts[k].result);
      NoOvertaking(ts, size, b, j, k);
    }
  }

  lemma {:induction false} AllDifferent(ts: seq<Turn>, size: nat, b: nat, i: nat, k: nat)
    requires Turns(ts, size) && i <= k <= |ts|
    requires forall j: nat :: i <= j < k - 1 ==> LeftAlone(ts, b, j)
    requires forall j :: i <= j < k ==> b in ts[j].eligible
    ensures |Results(ts, i, k)| == k - i
    decreases k - i
  {
    if i < k {
      AllDifferent(ts, size, b, i, k - 1);
      NewResult(ts, size, b, i, k - 1);
    }
  }

  lemma {:induction false} SubsetSize(a: set<nat>, b: set<nat>)
    requires a <= b
    ensures |a| <= |b|
  {
    if a != b {
      var rest := b - a;
      assert b == a + rest;
    }
  }

  lemma {:induction false} ResultsAmong(ts: seq<Turn>, size: nat, members: set<nat>, b: nat, i: nat, k: nat)
    requires Turns(ts, size) && i <= k <= |ts| && b in members
    requires forall j :: i <= j < k ==> ts[j].result != b && ts[j].eligible <= members
    ensures |Results(ts, i, k)| < |members|
  {
    forall r | r in Results(ts, i, k)
      ensures r in members - {b}
    {
      var j := ResultOf(ts, i, k, r);
      assert Fair(ts[j]);
    }
    SubsetSize(Results(ts, i, k), members - {b});
  }

  /** Until the next turn, b is throttled only if turn j returned it. */
  predicate Spared(ts: seq<Turn>, b: nat, j: nat) {
    j + 1 < |ts| && b < |ts[j].keys| == |ts[j + 1].keys| && (ts[j].result == b || ts[j + 1].keys[b] == ts[j].keys[b])
  }

  lemma {:induction false} NeverReturned(ts: seq<Turn>, size: nat, members: set<nat>, b: nat, i: nat, n: nat)
    requires Turns(ts, size) && n > 0 && i + n <= |ts| && b in members
    requires forall j :: i <= j < i + n ==> b in ts[j].eligible && ts[j].eligible <= members && ts[j].result != b
    requires forall j: nat :: i <= j < i + n - 1 ==> LeftAlone(ts, b, j)
    ensures n < |members|
  {
    AllDifferent(ts, size, b, i, i + n);
    ResultsAmong(ts, size, members, b, i, i + n);
  }

  lemma {:induction false} TurnWithinN(ts: seq<Turn>, size: nat, members: set<nat>, b: nat, i: nat, n: nat)
    requires Turns(ts, size) && n == |members| && i + n <= |ts| && b in members
    requires forall j :: i <= j < i + n ==> b in ts[j].eligible && ts[j].eligible <= members
    requires forall j: nat :: i <= j < i + n - 1 ==> Spared(ts, b, j)
    ensures exists j :: i <= j < i + n && ts[j].result == b
  {
    if forall j :: i <= j < i + n ==> ts[j].result != b {
      forall j: nat | i <= j < i + n - 1
        ensures LeftAlone(ts, b, j)
      {
        assert Spared(ts, b, j);
      }
      NonEmpty(members, b);
      NeverReturned(ts, size, members, b, i, n);
    }
  }

  lemma {:induction false} NonEmpty(members: set<nat>, b: nat)
    requires b in members
    ensures |members| > 0
  {
  }

  // ---------------- runs ----------------

  /** `turns` is the history of the calls for one role that handed out an account. The account handed out
      last was handed out at `lastTurn`. */
  datatype State = State(now: real, pool: seq<Account>, db: StateTable, turns: seq<Turn>, lastTurn: real)

  datatype Step =
    | Tick(dt: real)
    | Get(role: Role, env: Env, order: seq<nat>)  // get_available
    | Throttle(i: nat)                            // a throttle of the account completes
    | Change(i: nat, a: Account)                  // anything else: floods, rests, bans, bumps, failures

  function EligibleSet(cfg: Config, pool: seq<Account>, role: Role, env: Env): set<nat>
    requires ValidEnv(cfg, pool, env)
  {
    set j | 0 <= j < |pool| && Eligible(cfg, pool, role, env, j)
  }

  function Keys(pool: seq<Account>): (keys: seq<real>)
    ensures |keys| == |pool|
  {
    seq(|pool|, i requires 0 <= i < |pool| => Key(pool[i]))
  }

  function RoleMembers(pool: seq<Account>, role: Role): set<nat> {
    set j | 0 <= j < |pool| && pool[j].role == role
  }

  /** The account handed out last has been throttled, later than it was handed out. */
  predicate Settled(s: State) {
    s.turns == [] ||
    var last := s.turns[|s.turns| - 1].result;
    last < |s.pool| && Key(s.pool[last]) > s.lastTurn
  }

  ghost predicate Enabled(cfg: Config, s: State, step: Step) {
    match step
    case Tick(dt) => dt >= 0.0
    case Get(r, env, order) => ValidEnv(cfg, s.pool, env) && env.now == s.now && Ranks(s.pool, r, s.now, order)
    case Throttle(i) => i < |s.pool|
    case Change(i, a) =>
      i < |s.pool| && a.role == s.pool[i].role && a.rt.lastActionAt == s.pool[i].rt.lastActionAt
  }

  ghost function Apply(cfg: Config, role: Role, s: State, step: Step): State
    requires Enabled(cfg, s, step)
  {
    match step
    case Tick(dt) => s.(now := s.now + dt)
    case Get(r, env, order) =>
      var pick := TryInOrder(cfg, FilterAll(s.pool, r, env), s.db, order, env);
      var s' := s.(pool := pick.pool, db := pick.db);
      if r == role && pick.result.Some? then
        var turn := Turn(Keys(s.pool), EligibleSet(cfg, s.pool, role, env), pick.result.value);
        s'.(turns := s.turns + [turn], lastTurn := s.now)
      else s'
    case Throttle(i) => s.(pool := s.pool[i := s.pool[i].(rt := s.pool[i].rt.(lastActionAt := Some(s.now)))])
    case Change(i, a) => s.(pool := s.pool[i := a])
  }

  ghost predicate EnabledAll(cfg: Config, role: Role, s: State, steps: seq<Step>)
    decreases |steps|
  {
    steps == [] || (Enabled(cfg, s, steps[0]) && EnabledAll(cfg, role, Apply(cfg, role, s, steps[0]), steps[1..]))
  }

  /** Each call for the role finds the account handed out before it throttled. */
  ghost predicate SettledAll(cfg: Config, role: Role, s: State, steps: seq<Step>)
    requires EnabledAll(cfg, role, s, steps)
    decreases |steps|
  {
    steps == []
    || (&& (steps[0].Get? && steps[0].role == role ==> Settled(s))
        && SettledAll(cfg, role, Apply(cfg, role, s, steps[0]), steps[1..]))
  }

  ghost function Exec(cfg: Config, role: Role, s: State, steps: seq<Step>): State
    requires EnabledAll(cfg, role, s, steps)
    decreases |steps|
  {
    if steps == [] then s else Exec(cfg, role, Apply(cfg, role, s, steps[0]), steps[1..])
  }

  /** Nothing happened in the future, and no call has been answered yet. */
  predicate Fresh(s: State) {
    s.now >= 0.0 && s.turns == [] && forall i :: 0 <= i < |s.pool| ==> Key(s.pool[i]) <= s.now
  }

  predicate SameRoles(a: seq<Account>, b: seq<Account>) {
    |a| == |b| && forall i :: 0 <= i < |a| ==> a[i].role == b[i].role
  }

  predicate SameKeys(a: seq<Account>, b: seq<Account>) {
    |a| == |b| && forall i :: 0 <= i < |a| ==> Key(a[i]) == Key(b[i])
  }

  /** The last turn saw keys no later than its own time, and they have only grown since. */
  predicate LastTurnOk(s: State) {
    s.turns != [] ==>
      var keys := s.turns[|s.turns| - 1].keys;
      && s.lastTurn <= s.now && |keys| == |s.pool|
      && forall i :: 0 <= i < |keys| ==> keys[i] <= s.lastTurn && keys[i] <= Key(s.pool[i])
  }

  ghost predicate RunInv(role: Role, pool0: seq<Account>, s: State) {
    && s.now >= 0.0 && (forall i :: 0 <= i < |s.pool| ==> Key(s.pool[i]) <= s.now)
    && SameRoles(pool0, s.pool) && Turns(s.turns, |pool0|) && LastTurnOk(s)
    && forall i :: 0 <= i < |s.turns| ==> s.turns[i].eligible <= RoleMembers(pool0, role)
  }

  /** Filtering and trying leave keys and roles alone. */
  lemma {:induction false} TryKeepsKeys(cfg: Config, pool: seq<Account>, db: StateTable, order: seq<nat>, env: Env)
    requires ValidEnv(cfg, pool, env) && Orders(pool, order)
    ensures var pool' := TryInOrder(cfg, pool, db, order, env).pool;
            SameRoles(pool, pool') && SameKeys(pool, pool')
    decreases |order|
  {
    if order != [] {
      var i := order[0];
      AttemptKeepsKey(cfg, pool[i], env.now, env.picks[i], env.connectable[i]);
      var (a, ok) := Attempt(cfg, pool[i], env.now, env.picks[i], env.connectable[i]);
      if !ok {
        TryKeepsKeys(cfg, pool[i := a], StatusAfter(cfg, db, pool[i], env.now, env.picks[i], env.connectable[i]),
                     order[1..], env);
      }
    }
  }

  lemma {:induction false} AttemptKeepsKey(cfg: Config, a: Account, now: real, p: Picks, connectable: bool)
    ensures var a' := Attempt(cfg, a, now, p, connectable).0;
            Key(a') == Key(a) && a'.role == a.role
  {
  }

  lemma {:induction false} FilterKeeps(pool: seq<Account>, role: Role, env: Env)
    requires |env.picks| == |pool|
    ensures SameRoles(pool, FilterAll(pool, role, env)) && SameKeys(pool, FilterAll(pool, role, env))
  {
  }

  /** A call leaves keys and roles alone; its answer, if any, is a fair turn. */
  lemma {:induction false} GetKeeps(cfg: Config, role: Role, s: State, step: Step)
    requires Enabled(cfg, s, step) && step.Get?
    ensures var s' := Apply(cfg, role, s, step);
            && s'.now == s.now && SameRoles(s.pool, s'.pool) && SameKeys(s.pool, s'.pool)
            && (|| (s'.turns == s.turns && s'.lastTurn == s.lastTurn)
                || (step.role == role && |s'.turns| == |s.turns| + 1 && s'.lastTurn == s.now
                    && s'.turns == s.turns + [s'.turns[|s.turns|]] && NewTurn(role, s, s'.turns[|s.turns|])))
  {
    var filtered := FilterAll(s.pool, step.role, step.env);
    FilterKeeps(s.pool, step.role, step.env);
    TryKeepsKeys(cfg, filtered, s.db, step.order, step.env);
    SortedOrderIsLRU(cfg, s.pool, s.db, step.role, step.env, step.order);
    var result := TryInOrder(cfg, filtered, s.db, step.order, step.env).result;
    if step.role == role && result.Some? {
      AnswerIsFair(cfg, s.pool, role, step.env, result.value);
      EligibleHaveRole(cfg, s.pool, role, step.env);
    }
  }

  predicate NewTurn(role: Role, s: State, t: Turn) {
    Fair(t) && t.keys == Keys(s.pool) && t.eligible <= RoleMembers(s.pool, role)
  }

  lemma {:induction false} AnswerIsFair(cfg: Config, pool: seq<Account>, role: Role, env: Env, result: nat)
    requires ValidEnv(cfg, pool, env) && LeastRecentlyUsed(cfg, pool, role, env, Some(result))
    ensures Fair(Turn(Keys(pool), EligibleSet(cfg, pool, role, env), result))
  {
  }

  lemma {:induction false} EligibleHaveRole(cfg: Config, pool: seq<Account>, role: Role, env: Env)
    requires ValidEnv(cfg, pool, env)
    ensures EligibleSet(cfg, pool, role, env) <= RoleMembers(pool, role)
  {
  }

  lemma {:induction false} TurnsSnoc(ts: seq<Turn>, size: nat, t: Turn)
    requires Turns(ts, size) && Fair(t) && |t.keys| == size
    requires ts != [] ==> Follows(ts[|ts| - 1], t)
    ensures Turns(ts + [t], size)
  {
    forall i: nat
      ensures FollowsAt(ts + [t], i)
    {
      assert FollowsAt(ts, i);
    }
  }

  lemma {:induction false} AnswerFollows(role: Role, pool0: seq<Account>, s: State, t: Turn)
    requires RunInv(role, pool0, s) && Settled(s) && NewTurn(role, s, t)
    ensures s.turns != [] ==> Follows(s.turns[|s.turns| - 1], t)
  {
    if s.turns != [] {
      assert Fair(s.turns[|s.turns| - 1]);
    }
  }

  lemma {:induction false} AnswerKeepsRun(role: Role, pool0: seq<Account>, s: State, s': State, t: Turn)
    requires RunInv(role, pool0, s) && Settled(s) && NewTurn(role, s, t)
    requires s'.turns == s.turns + [t] && s'.lastTurn == s'.now == s.now
    requires SameRoles(s.pool, s'.pool) && SameKeys(s.pool, s'.pool)
    ensures RunInv(role, pool0, s')
  {
    AnswerFollows(role, pool0, s, t);
    TurnsSnoc(s.turns, |pool0|, t);
    assert RoleMembers(s.pool, role) == RoleMembers(pool0, role);
  }

  /** Steps that answer no call of the role. */
  lemma {:induction false} QuietKeepsRun(role: Role, pool0: seq<Account>, s: State, s': State)
    requires RunInv(role, pool0, s) && s'.turns == s.turns && s'.lastTurn == s.lastTurn && s'.now >= s.now
    requires SameRoles(s.pool, s'.pool)
    requires forall i :: 0 <= i < |s.pool| ==> Key(s.pool[i]) <= Key(s'.pool[i]) <= s'.now
    ensures RunInv(role, pool0, s')
  {
  }

  lemma {:induction false} StepKeepsRun(cfg: Config, role: Role, pool0: seq<Account>, s: State, step: Step)
    requires RunInv(role, pool0, s) && Enabled(cfg, s, step)
    requires step.Get? && step.role == role ==> Settled(s)
    ensures RunInv(role, pool0, Apply(cfg, role, s, step))
  {
    var s' := Apply(cfg, role, s, step);
    if step.Get? {
      GetKeeps(cfg, role, s, step);
      if |s'.turns| > |s.turns| {
        AnswerKeepsRun(role, pool0, s, s', s'.turns[|s.turns|]);
        return;
      }
    }
    QuietKeepsRun(role, pool0, s, s');
  }

  lemma {:induction false} RunKeepsRun(cfg: Config, role: Role, pool0: seq<Account>, s: State, steps: seq<Step>)
    requires RunInv(role, pool0, s) && EnabledAll(cfg, role, s, steps) && SettledAll(cfg, role, s, steps)
    ensures RunInv(role, pool0, Exec(cfg, role, s, steps))
    decreases |steps|
  {
    if steps != [] {
      StepKeepsRun(cfg, role, pool0, s, steps[0]);
      RunKeepsRun(cfg, role, pool0, Apply(cfg, role, s, steps[0]), steps[1..]);
    }
  }

  /** Over any run in which each returned account is throttled before the next call: with n accounts of
      the role, one that stays eligible is returned within n answers, unless it is throttled without
      having been returned. */
  lemma {:induction false} ReturnedWithinN(cfg: Config, role: Role, s0: State, steps: seq<Step>, b: nat, i: nat, n: nat)
    requires Fresh(s0) && EnabledAll(cfg, role, s0, steps) && SettledAll(cfg, role, s0, steps)
    requires b in RoleMembers(s0.pool, role) && n == |RoleMembers(s0.pool, role)|
    requires i + n <= |Exec(cfg, role, s0, steps).turns|
    requires var turns := Exec(cfg, role, s0, steps).turns;
             && (forall j :: i <= j < i + n ==> b in turns[j].eligible)
             && (forall j: nat :: i <= j < i + n - 1 ==> Spared(turns, b, j))
    ensures exists j :: i <= j < i + n && Exec(cfg, role, s0, steps).turns[j].result == b
  {
    RunKeepsRun(cfg, role, s0.pool, s0, steps);
    TurnWithinN(Exec(cfg, role, s0, steps).turns, |s0.pool|, RoleMembers(s0.pool, role), b, i, n);
  }

  /** Over any such run, no account is returned twice while another one of the role, eligible at the
      second call, was neither returned nor throttled in between. */
  lemma {:induction false} NoRepeatWhileOneWaits(cfg: Config, role: Role, s0: State, steps: seq<Step>, b: nat, i: nat,
      k: nat)
    requires Fresh(s0) && EnabledAll(cfg, role, s0, steps) && SettledAll(cfg, role, s0, steps)
    requires i < k < |Exec(cfg, role, s0, steps).turns|
    requires var turns := Exec(cfg, role, s0, steps).turns;
             b in turns[k].eligible && forall j: nat :: i <= j < k ==> LeftAlone(turns, b, j)
    ensures var turns := Exec(cfg, role, s0, steps).turns;
            turns[k].result != turns[i].result
  {
    RunKeepsRun(cfg, role, s0.pool, s0, steps);
    NoOvertaking(Exec(cfg, role, s0, steps).turns, |s0.pool|, b, i, k);
  }

  // ---------------- without a throttle in between ----------------

  /** The answer of a call in this state. */
  function Answer(cfg: Config, s: State, role: Role, env: Env, order: seq<nat>): Option<nat>
    requires ValidEnv(cfg, s.pool, env) && Orders(s.pool, order)
  {
    TryInOrder(cfg, FilterAll(s.pool, role, env), s.db, order, env).result
  }

  predicate NoThrottle(steps: seq<Step>) {
    forall j :: 0 <= j < |steps| ==> !steps[j].Throttle?
  }

  lemma {:induction false} QuietStepKeepsKeys(cfg: Config, role: Role, s: State, step: Step)
    requires Enabled(cfg, s, step) && !step.Throttle?
    ensures SameKeys(s.pool, Apply(cfg, role, s, step).pool)
  {
    if step.Get? {
      GetKeeps(cfg, role, s, step);
    }
  }

  lemma {:induction false} QuietRunKeepsKeys(cfg: Config, role: Role, s: State, steps: seq<Step>)
    requires EnabledAll(cfg, role, s, steps) && NoThrottle(steps)
    ensures SameKeys(s.pool, Exec(cfg, role, s, steps).pool)
    decreases |steps|
  {
    if steps != [] {
      QuietStepKeepsKeys(cfg, role, s, steps[0]);
      QuietRunKeepsKeys(cfg, role, Apply(cfg, role, s, steps[0]), steps[1..]);
    }
  }

  /** Nothing reserves an account: if a call answers i and no throttle follows, the next call answers i
      again if and only if i is eligible then and no account before it in the order of the first call
      has become so. */
  lemma {:induction false} SameAgainIff(cfg: Config, role: Role, s: State, env: Env, order: seq<nat>, i: nat,
      steps: seq<Step>,
      env': Env, order': seq<nat>)
    requires Enabled(cfg, s, Get(role, env, order)) && Answer(cfg, s, role, env, order) == Some(i)
    requires EnabledAll(cfg, role, Apply(cfg, role, s, Get(role, env, order)), steps) && NoThrottle(steps)
    requires var last := Exec(cfg, role, Apply(cfg, role, s, Get(role, env, order)), steps);
             Enabled(cfg, last, Get(role, env', order'))
    ensures var last := Exec(cfg, role, Apply(cfg, role, s, Get(role, env, order)), steps);
            && i < |s.pool| == |last.pool|
            && (Answer(cfg, last, role, env', order') == Some(i)
                <==> (&& Eligible(cfg, last.pool, role, env', i)
                      && forall j: nat :: j < |s.pool| && Precedes(s.pool, j, i) ==>
                           !Eligible(cfg, last.pool, role, env', j)))
  {
    var s1 := Apply(cfg, role, s, Get(role, env, order));
    var last := Exec(cfg, role, s1, steps);
    SortedOrderIsLRU(cfg, s.pool, s.db, role, env, order);
    QuietStepKeepsKeys(cfg, role, s, Get(role, env, order));
    QuietRunKeepsKeys(cfg, role, s1, steps);
    SortedOrderIsLRU(cfg, last.pool, last.db, role, env', order');
    AnswerIff(cfg, last.pool, role, env', Answer(cfg, last, role, env', order'), i);
    assert forall j: nat :: j < |s.pool| ==> Precedes(s.pool, j, i) == Precedes(last.pool, j, i);
  }

  lemma {:induction false} AnswerIff(cfg: Config, pool: seq<Account>, role: Role, env: Env, answer: Option<nat>, i: nat)
    requires ValidEnv(cfg, pool, env) && LeastRecentlyUsed(cfg, pool, role, env, answer) && i < |pool|
    ensures answer == Some(i)
            <==> (&& Eligible(cfg, pool, role, env, i)
                  && forall j: nat :: j < |pool| && Precedes(pool, j, i) ==> !Eligible(cfg, pool, role, env, j))
  {
    if Eligible(cfg, pool, role, env, i) && answer.Some? && answer.value != i {
      assert Precedes(pool, answer.value, i);
    }
  }

  // ---------------- two calls at once ----------------

  /** Eligible, as a matter of one account. */
  predicate Usable(cfg: Config, a: Account, role: Role, now: real, p: Picks, connectable: bool) {
    Candidate(a, role, now) && Attempt(cfg, Filtered(a, role, now, p), now, p, connectable).1
  }

  /** Being filtered or tried changes nothing about whether an account is usable at the same moment. */
  lemma {:induction false} UsableAgain(cfg: Config, a: Account, role: Role, now: real, p: Picks, connectable: bool)
    requires cfg.restMinutes.0 > 0 && ValidPicks(cfg, p)
    ensures var filtered := Filtered(a, role, now, p);
            var tried := Attempt(cfg, filtered, now, p, connectable).0;
            && Usable(cfg, filtered, role, now, p, connectable) == Usable(cfg, a, role, now, p, connectable)
            && (Candidate(a, role, now) ==>
                  Usable(cfg, tried, role, now, p, connectable) == Usable(cfg, a, role, now, p, connectable))
  {
    FilterTwice(a, role, now, p);
    if Candidate(a, role, now) {
      AskAgain(cfg, Filtered(a, role, now, p).rt, now, p);
    }
  }

  lemma {:induction false} FilterTwice(a: Account, role: Role, now: real, p: Picks)
    ensures var filtered := Filtered(a, role, now, p);
            && Candidate(filtered, role, now) == Candidate(a, role, now)
            && Filtered(filtered, role, now, p) == filtered
  {
  }

  /** Asking twice at the same moment: a grant is repeated, and a refusal is not taken back. */
  lemma {:induction false} AskAgain(cfg: Config, rt: Runtime, now: real, p: Picks)
    requires cfg.restMinutes.0 > 0 && ValidPicks(cfg, p)
    requires !BanActive(rt, now) && !RestActive(rt, now) && AfterBanCheck(rt, now) == rt && rt.restUntil.None?
    ensures var (rt', answer) := CanContinue(cfg, rt, now, p);
            && !BanActive(rt', now) && AfterBanCheck(rt', now) == rt'
            && (answer.RestCycle? ==> RestActive(rt', now))
            && (!answer.RestCycle? ==> rt'.restUntil.None? && CanContinue(cfg, rt', now, p) == (rt', answer))
  {
  }

  lemma {:induction false} StillEligible(cfg: Config, s: State, role: Role, env: Env, order: seq<nat>, j: nat)
    requires cfg.restMinutes.0 > 0 && ValidEnv(cfg, s.pool, env)
    requires env.now == s.now && Ranks(s.pool, role, s.now, order)
    requires j < |s.pool|
    ensures var pool' := TryInOrder(cfg, FilterAll(s.pool, role, env), s.db, order, env).pool;
            |pool'| == |s.pool| && Eligible(cfg, pool', role, env, j) == Eligible(cfg, s.pool, role, env, j)
  {
    TriedOrNot(cfg, FilterAll(s.pool, role, env), s.db, order, env, j);
    UsableAgain(cfg, s.pool[j], role, env.now, env.picks[j], env.connectable[j]);
  }

  /** Two workers that ask for the same role at the same moment are handed the same account, if rests
      have a length; the same connections are assumed to succeed. */
  lemma {:induction false} HandedOutTwice(cfg: Config, role: Role, s: State, env: Env, order: seq<nat>, i: nat,
      order': seq<nat>)
    requires cfg.restMinutes.0 > 0
    requires Enabled(cfg, s, Get(role, env, order)) && Answer(cfg, s, role, env, order) == Some(i)
    requires Enabled(cfg, Apply(cfg, role, s, Get(role, env, order)), Get(role, env, order'))
    ensures Answer(cfg, Apply(cfg, role, s, Get(role, env, order)), role, env, order') == Some(i)
  {
    var s1 := Apply(cfg, role, s, Get(role, env, order));
    assert EnabledAll(cfg, role, s1, []) && Exec(cfg, role, s1, []) == s1;
    SameAgainIff(cfg, role, s, env, order, i, [], env, order');
    SortedOrderIsLRU(cfg, s.pool, s.db, role, env, order);
    StillEligible(cfg, s, role, env, order, i);
    forall j: nat | j < |s.pool| && Precedes(s.pool, j, i)
      ensures !Eligible(cfg, s1.pool, role, env, j)
    {
      StillEligible(cfg, s, role, env, order, j);
    }
  }

  const SETTINGS: Config :=
    Config((10.0, 20.0), (0.0, 0.0), (0.0, 0.0), 0.0, 10, 10, 3, 1.0, 1, 300, (100, 100), (30, 30), (0, 0))

  const IDLE: Account :=
    Account(7, Scanner, Runtime(false, 0, 0, 0, 0, 0, 0, 0, 0, None, 1.0, None, 6000, None, None, None, None), true, 0)

  /** It happens at once: a pool of one fresh scanner serves two calls at the same moment. */
  lemma {:induction false} TwoWorkersOneAccount()
    ensures var s := State(0.0, [IDLE], map[], [], 0.0);
            var get := Get(Scanner, Env(0.0, [Picks(100, 30)], [true]), [0]);
            && Fresh(s) && Enabled(SETTINGS, s, get) && Enabled(SETTINGS, Apply(SETTINGS, Scanner, s, get), get)
            && Answer(SETTINGS, s, Scanner, get.env, get.order) == Some(0)
            && Answer(SETTINGS, Apply(SETTINGS, Scanner, s, get), Scanner, get.env, get.order) == Some(0)
  {
    var s := State(0.0, [IDLE], map[], [], 0.0);
    var env := Env(0.0, [Picks(100, 30)], [true]);
    OnlyCandidate(s.pool, env);
    var s1 := Apply(SETTINGS, Scanner, s, Get(Scanner, env, [0]));
    assert |s1.pool| == 1 && Candidate(s1.pool[0], Scanner, 0.0);
    OnlyCandidate(s1.pool, env);
    HandedOutTwice(SETTINGS, Scanner, s, env, [0], 0, [0]);
  }

  lemma {:induction false} OnlyCandidate(pool: seq<Account>, env: Env)
    requires |pool| == 1 && Candidate(pool[0], Scanner, 0.0)
    ensures Ranks(pool, Scanner, 0.0, [0])
  {
  }
}
