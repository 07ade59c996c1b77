/** The account manager over its objects: accounts that own their limiters, and the account_states
    table. Every method is proved against the functions of Accounts. */
module AccountManager {
  import opened Base
  import opened RateLimiter
  import opened Accounts

  class PooledAccount {
    const id: nat
    const role: Role
    const limiter: RateLimiter
    var connected: bool
    var failures: nat

    constructor (id: nat, role: Role, limiter: RateLimiter)
      ensures this.id == id && this.role == role && this.limiter == limiter && !connected && failures == 0
    {
      this.id, this.role, this.limiter := id, role, limiter;
      connected, failures := false, 0;
    }

    function View(): Account
      reads this, limiter
    {
      Account(id, role, limiter.rt, connected, failures)
    }

    /** `not is_banned() and not is_resting()`, with their side effects. */
    method Check(now: real, p: Picks) returns (free: bool)
      requires ValidPicks(limiter.cfg, p)
      modifies limiter
      ensures View() == Filtered(old(View()), role, now, p)
      ensures free == Candidate(old(View()), role, now)
    {
      var banned := limiter.IsBanned(now);
      if banned {
        return false;
      }
      var resting := limiter.IsResting(now, p);
      return !resting;
    }

    /** _connect_one on an account that is not connected: ok says whether the client starts. */
    method Connect(states: AccountStates, ok: bool)
      modifies this, states`rows
      ensures View() == Connected(old(View()), ok)
      ensures states.rows == RowStatus(old(states.rows), id, if ok then Idle else Disconnected)
    {
      if ok {
        connected := true;
        states.UpdateStatus(id, Idle);
      } else {
        failures := failures + 1;
        states.UpdateStatus(id, Disconnected);
      }
    }

    /** One turn of the loop of get_available. */
    method Try(states: AccountStates, now: real, p: Picks, connectable: bool) returns (ok: bool)
      requires ValidPicks(limiter.cfg, p)
      modifies this, limiter, states`rows
      ensures (View(), ok) == Attempt(limiter.cfg, old(View()), now, p, connectable)
      ensures states.rows == StatusAfter(limiter.cfg, old(states.rows), old(View()), now, p, connectable)
    {
      var answer := limiter.MayContinue(now, p);
      if answer != Granted {
        return false;
      }
      if !connected {
        Connect(states, connectable);
        return connectable;
      }
      return true;
    }
  }

  class AccountStates {
    var rows: StateTable
    var disabled: set<nat>        // telegram_accounts with enabled = false

    constructor ()
      ensures rows == map[] && disabled == {}
    {
      rows, disabled := map[], {};
    }

    method GetEnabledAccounts(catalog: seq<Model>) returns (models: seq<Model>)
      ensures models == EnabledModels(catalog, disabled)
    {
      models := [];
      for n := 0 to |catalog|
        invariant models == EnabledModels(catalog[..n], disabled)
      {
        assert catalog[..n + 1][..n] == catalog[..n];
        if catalog[n].id !in disabled {
          models := models + [catalog[n]];
        }
      }
      assert catalog[..|catalog|] == catalog;
    }

    /** mark_account_dead: the status, and the account is disabled. */
    method MarkAccountDead(id: nat)
      modifies this
      ensures rows == RowStatus(old(rows), id, DeadStatus) && disabled == old(disabled) + {id}
    {
      UpdateStatus(id, DeadStatus);
      disabled := disabled + {id};
    }

    method MarkAccountBanned(id: nat, now: real, seconds: int)
      modifies this`rows
      ensures rows == RowBanned(old(rows), id, now, seconds)
    {
      if id in rows {
        var row := rows[id];
        rows := rows[id := row.(status := BannedStatus, banUntil := Some(now + seconds as real),
                                totalBans := row.totalBans + 1)];
      }
    }

    method UpdateStatus(id: nat, status: AccountStatus)
      modifies this`rows
      ensures rows == RowStatus(old(rows), id, status)
    {
      if id in rows {
        rows := rows[id := rows[id].(status := status)];
      }
    }

    method EnsureAccountState(id: nat, today: int)
      modifies this`rows
      ensures rows == WithRow(old(rows), id, today)
    {
      if id !in rows {
        rows := rows[id := NewRow(today)];
      }
    }

    method ResetDailyCounters(today: int)
      modifies this`rows
      ensures rows == DayReset(old(rows), today)
    {
      var late := set id | id in rows && rows[id].dayDate < today;
      rows := map id | id in rows ::
        if id in late
        then rows[id].(dayDate := today, groupsToday := 0, messagesToday := 0, profilesToday := 0, searchesToday := 0,
                       floodsHour := 0)
        else rows[id];
    }

    method ExpireBans(now: real) returns (ids: set<nat>)
      modifies this`rows
      ensures rows == BansExpired(old(rows), now)
      ensures ids == set id | id in old(rows) && Expired(old(rows)[id], now)
    {
      ids := set id | id in rows && Expired(rows[id], now);
      assert forall id :: id in rows ==> (id in ids <==> Expired(rows[id], now));
      rows := map id | id in rows ::
        if id in ids then rows[id].(status := Idle, banUntil := None) else rows[id];
    }
  }

  class AccountManager {
    const cfg: Config
    const states: AccountStates
    var accounts: seq<PooledAccount>

    ghost function Footprint(): set<object>
      reads this
    {
      (set i | 0 <= i < |accounts| :: accounts[i] as object)
      + (set i | 0 <= i < |accounts| :: accounts[i].limiter as object)
    }

    /** No two accounts share an object, and all limiters have the manager's settings. */
    ghost predicate Valid()
      reads this
    {
      && (forall i, j :: 0 <= i < j < |accounts| ==>
            accounts[i] != accounts[j] && accounts[i].limiter != accounts[j].limiter)
      && (forall i :: 0 <= i < |accounts| ==> accounts[i].limiter.cfg == cfg)
    }

    ghost function Pool(): (pool: seq<Account>)
      reads this, Footprint()
      ensures |pool| == |accounts|
    {
      seq(|accounts|, i requires 0 <= i < |accounts| reads this, Footprint() => accounts[i].View())
    }

    constructor (cfg: Config)
      ensures Valid() && this.cfg == cfg && accounts == [] && fresh(states) && states.rows == map[]
    {
      this.cfg := cfg;
      states := new AccountStates();
      accounts := [];
    }

    /** load_all up to the connections, over the accounts enabled now. */
    method LoadAll(catalog: seq<Model>, now: real, picks: map<nat, Picks>) returns (models: seq<Model>)
      requires forall m :: m in catalog ==> m.id in picks && ValidPicks(cfg, picks[m.id])
      modifies this, states`rows
      ensures Valid() && models == EnabledModels(catalog, states.disabled) && |accounts| == |models|
      ensures forall i :: 0 <= i < |accounts| ==> fresh(accounts[i]) && fresh(accounts[i].limiter)
      ensures states.rows == LoadedTable(old(states.rows), models, now)
      ensures forall i :: 0 <= i < |models| ==> Built(Pool()[i], models[i], states.rows, picks)
    {
      states.ResetDailyCounters(Slot(now, DAY));
      var lifted := states.ExpireBans(now);
      models := states.GetEnabledAccounts(catalog);
      EnabledModelsAre(catalog, states.disabled);
      accounts := [];
      BuildAccounts(models, Slot(now, DAY), picks);
    }

    /** v is the account built for m from its row. */
    static ghost predicate Built(v: Account, m: Model, rows: StateTable, picks: map<nat, Picks>) {
      m.id in rows && m.id in picks && v == LoadedAccount(m, rows[m.id], picks[m.id].work)
    }

    static lemma {:induction false} BuiltStays(v: Account, m: Model, rows: StateTable, picks: map<nat, Picks>,
        id: nat, today: int)
      requires Built(v, m, rows, picks)
      ensures Built(v, m, WithRow(rows, id, today), picks)
    {
    }

    /** The loop over the models: add a missing row, then build the account from its row. */
    method BuildAccounts(models: seq<Model>, today: int, picks: map<nat, Picks>)
      requires forall m :: m in models ==> m.id in picks && ValidPicks(cfg, picks[m.id])
      requires accounts == []
      modifies this, states`rows
      ensures Valid() && |accounts| == |models|
      ensures forall i :: 0 <= i < |accounts| ==> fresh(accounts[i]) && fresh(accounts[i].limiter)
      ensures states.rows == WithRows(old(states.rows), models, today)
      ensures forall i :: 0 <= i < |models| ==> Built(accounts[i].View(), models[i], states.rows, picks)
    {
      ghost var db := states.rows;
      for n := 0 to |models|
        invariant Valid() && |accounts| == n
        invariant forall i :: 0 <= i < n ==> fresh(accounts[i]) && fresh(accounts[i].limiter)
        invariant states.rows == WithRows(db, models[..n], today)
        invariant forall i :: 0 <= i < n ==> Built(accounts[i].View(), models[i], states.rows, picks)
      {
        assert models[..n + 1][..n] == models[..n];
        ghost var rows := states.rows;
        forall i | 0 <= i < n
          ensures Built(accounts[i].View(), models[i], WithRow(rows, models[n].id, today), picks)
        {
          BuiltStays(accounts[i].View(), models[i], rows, picks, models[n].id, today);
        }
        AddAccount(models[n], today, picks[models[n].id]);
      }
      assert models[..|models|] == models;
    }

    method AddAccount(m: Model, today: int, p: Picks)
      requires Valid() && ValidPicks(cfg, p)
      modifies this, states`rows
      ensures Valid() && |accounts| == |old(accounts)| + 1 && accounts[..|old(accounts)|] == old(accounts)
      ensures var added := accounts[|old(accounts)|];
              && fresh(added) && fresh(added.limiter) && states.rows == WithRow(old(states.rows), m.id, today)
              && added.View() == LoadedAccount(m, states.rows[m.id], p.work)
    {
      states.EnsureAccountState(m.id, today);
      var account := NewAccount(m, states.rows[m.id], p);
      accounts := accounts + [account];
    }

    method NewAccount(m: Model, row: StateRow, p: Picks) returns (account: PooledAccount)
      requires ValidPicks(cfg, p)
      ensures fresh(account) && fresh(account.limiter) && account.limiter.cfg == cfg
      ensures account.View() == LoadedAccount(m, row, p.work)
    {
      var rt := LoadedAccount(m, row, 0).rt;
      var limiter := new RateLimiter(cfg, rt, p);
      account := new PooledAccount(m.id, RoleOf(m.role), limiter);
    }

    /** The connections load_all makes: one per entry of oks, in pool order. */
    method ConnectFirst(oks: seq<bool>)
      requires Valid() && |oks| <= |accounts|
      modifies Footprint(), states`rows
      ensures Valid() && accounts == old(accounts)
      ensures Pool() == ConnectedPool(old(Pool()), oks)
      ensures states.rows == ConnectedTable(old(states.rows), old(Pool()), oks, |oks|)
    {
      ghost var pool0, db0 := Pool(), states.rows;
      ghost var goal := ConnectedPool(pool0, oks);
      for n := 0 to |oks|
        invariant accounts == old(accounts) && Halfway(Pool(), pool0, goal, n)
        invariant states.rows == ConnectedTable(db0, pool0, oks, n)
      {
        ghost var before := Pool();
        ConnectAt(n, oks[n]);
        OneFurther(before, Pool(), pool0, goal, n);
      }
      assert Pool() == goal;
    }

    /** The first n accounts are as in goal, the others as before. */
    static ghost predicate Halfway(pool: seq<Account>, before: seq<Account>, goal: seq<Account>, n: nat) {
      && |pool| == |before| == |goal|
      && forall j :: 0 <= j < |pool| ==> pool[j] == if j < n then goal[j] else before[j]
    }

    static lemma {:induction false} OneFurther(pool: seq<Account>, pool': seq<Account>, before: seq<Account>,
        goal: seq<Account>, n: nat)
      requires Halfway(pool, before, goal, n) && n < |pool| == |pool'| && pool'[n] == goal[n]
      requires forall j :: 0 <= j < |pool| && j != n ==> pool'[j] == pool[j]
      ensures Halfway(pool', before, goal, n + 1)
    {
    }

    method ConnectAt(i: nat, ok: bool)
      requires Valid() && i < |accounts|
      modifies accounts[i], states`rows
      ensures accounts == old(accounts) && Pool()[i] == Connected(old(Pool())[i], ok)
      ensures forall j :: 0 <= j < |accounts| && j != i ==> Pool()[j] == old(Pool())[j]
      ensures states.rows == RowStatus(old(states.rows), accounts[i].id, if ok then Idle else Disconnected)
    {
      accounts[i].Connect(states, ok);
    }

    /** candidates.sort: a stable insertion sort stands for the library call. */
    method SortByLastAction(candidates: seq<nat>) returns (order: seq<nat>)
      requires Valid() && Orders(Pool(), candidates)
      requires forall x, y :: 0 <= x < y < |candidates| ==> candidates[x] < candidates[y]
      ensures Orders(Pool(), order) && Sorted(Pool(), order)
      ensures forall i: nat :: i in order <==> i in candidates
    {
      order := [];
      for n := 0 to |candidates|
        invariant forall i: nat :: i in order <==> i in candidates[..n]
        invariant Orders(Pool(), order) && Sorted(Pool(), order)
      {
        assert candidates[..n + 1] == candidates[..n] + [candidates[n]];
        order := Insert(order, candidates[n]);
      }
      assert candidates[..|candidates|] == candidates;
    }

    method Insert(order: seq<nat>, c: nat) returns (longer: seq<nat>)
      requires Valid() && Orders(Pool(), order) && Sorted(Pool(), order)
      requires c < |accounts| && forall i :: i in order ==> i < c
      ensures Orders(Pool(), longer) && Sorted(Pool(), longer)
      ensures forall i: nat :: i in longer <==> i in order || i == c
    {
      ghost var pool := Pool();
      var at := |order|;
      while at > 0 && Key(accounts[order[at - 1]].View()) > Key(accounts[c].View())
        invariant 0 <= at <= |order|
        invariant forall x :: at <= x < |order| ==> Precedes(pool, c, order[x])
      {
        at := at - 1;
      }
      longer := order[..at] + [c] + order[at..];
      assert at > 0 ==> order[at - 1] in order;
      InsertedSorted(pool, order, at, c, longer);
    }

    static lemma {:induction false} Inserted(before: seq<nat>, at: nat, c: nat, after: seq<nat>)
      requires at <= |before| && after == before[..at] + [c] + before[at..]
      ensures |after| == |before| + 1 && after[at] == c
      ensures forall x :: 0 <= x < at ==> after[x] == before[x]
      ensures forall x :: at < x < |after| ==> after[x] == before[x - 1]
      ensures forall i :: i in after <==> i in before || i == c
    {
      assert before == before[..at] + before[at..];
    }

    static lemma {:induction false} InsertedSorted(pool: seq<Account>, before: seq<nat>, at: nat, c: nat,
        after: seq<nat>)
      requires Orders(pool, before) && Sorted(pool, before) && c < |pool| && c !in before
      requires at <= |before| && after == before[..at] + [c] + before[at..]
      requires at > 0 ==> Precedes(pool, before[at - 1], c)
      requires forall x :: at <= x < |before| ==> Precedes(pool, c, before[x])
      ensures Orders(pool, after) && Sorted(pool, after)
      ensures forall i: nat :: i in after <==> i in before || i == c
    {
      Inserted(before, at, c, after);
      forall x, y | 0 <= x < y < |after|
        ensures after[x] < |pool| && after[y] < |pool| && Precedes(pool, after[x], after[y])
      {
        if x < at && y == at && x < at - 1 {
          assert Precedes(pool, before[x], before[at - 1]);
        }
      }
    }

    method CheckAt(i: nat, role: Role, now: real, p: Picks) returns (free: bool)
      requires Valid() && i < |accounts| && ValidPicks(cfg, p)
      modifies accounts[i].limiter
      ensures accounts == old(accounts) && Pool() == old(Pool())[i := Filtered(old(Pool())[i], role, now, p)]
      ensures free == Candidate(old(Pool())[i], role, now)
    {
      free := false;
      if accounts[i].role == role {
        free := accounts[i].Check(now, p);
      }
    }

    /** The list comprehension over the pool. */
    method CollectCandidates(role: Role, env: Env) returns (candidates: seq<nat>)
      requires Valid() && ValidEnv(cfg, Pool(), env)
      modifies set i | 0 <= i < |accounts| :: accounts[i].limiter
      ensures Valid() && accounts == old(accounts) && Pool() == FilterAll(old(Pool()), role, env)
      ensures candidates == Candidates(old(Pool()), role, env.now, |accounts|)
    {
      ghost var pool0 := Pool();
      ghost var goal := FilterAll(pool0, role, env);
      candidates := [];
      for i := 0 to |accounts|
        invariant accounts == old(accounts)
        invariant forall j :: 0 <= j < |accounts| ==> Pool()[j] == if j < i then goal[j] else pool0[j]
        invariant candidates == Candidates(pool0, role, env.now, i)
      {
        var free := CheckAt(i, role, env.now, env.picks[i]);
        if free {
          candidates := candidates + [i];
        }
      }
    }

    /** The loop over the sorted candidates. */
    method TryCandidates(order: seq<nat>, env: Env) returns (result: Option<nat>)
      requires Valid() && ValidEnv(cfg, Pool(), env) && Orders(Pool(), order)
      modifies Footprint(), states`rows
      ensures Valid() && accounts == old(accounts)
      ensures Pick(Pool(), states.rows, result) == TryInOrder(cfg, old(Pool()), old(states.rows), order, env)
    {
      ghost var pool0, db0 := Pool(), states.rows;
      result := None;
      for n := 0 to |order|
        invariant accounts == old(accounts)
        invariant ValidEnv(cfg, Pool(), env) && Orders(Pool(), order[n..])
        invariant TryInOrder(cfg, Pool(), states.rows, order[n..], env) == TryInOrder(cfg, pool0, db0, order, env)
      {
        var i := order[n];
        assert order[n..][0] == i && order[n..][1..] == order[n + 1..];
        ghost var before := Pool();
        var ok := accounts[i].Try(states, env.now, env.picks[i], env.connectable[i]);
        assert Pool() == before[i := Attempt(cfg, before[i], env.now, env.picks[i], env.connectable[i]).0];
        if ok {
          return Some(i);
        }
      }
    }

    /** The candidates in the order in which they will be tried. */
    method RankCandidates(role: Role, env: Env) returns (order: seq<nat>)
      requires Valid() && ValidEnv(cfg, Pool(), env)
      modifies set i | 0 <= i < |accounts| :: accounts[i].limiter
      ensures Valid() && accounts == old(accounts) && Pool() == FilterAll(old(Pool()), role, env)
      ensures Ranks(old(Pool()), role, env.now, order)
    {
      ghost var pool0 := Pool();
      var candidates := CollectCandidates(role, env);
      CandidatesSpec(pool0, role, env.now, |pool0|);
      order := SortByLastAction(candidates);
      FilterKeepsOrder(pool0, role, env, order);
    }

    /** The account to use next, with the order in which candidates were tried. */
    method GetAvailable(role: Role, env: Env) returns (result: Option<nat>, ghost order: seq<nat>)
      requires Valid() && ValidEnv(cfg, Pool(), env)
      modifies Footprint(), states`rows
      ensures Valid() && accounts == old(accounts)
      ensures LeastRecentlyUsed(cfg, old(Pool()), role, env, result)
      ensures Ranks(old(Pool()), role, env.now, order)
      ensures result.Some? ==>
                var i := result.value;
                && i < |accounts| && old(Pool())[i].role == role && Pool()[i].connected
                && CanContinue(cfg, old(Pool())[i].rt, env.now, env.picks[i]).1.Granted?
                && Pool()[i].rt == CanContinue(cfg, old(Pool())[i].rt, env.now, env.picks[i]).0
      ensures result.None? ==>
                forall j :: 0 <= j < |accounts| && old(Pool())[j].role == role ==>
                  || !CanContinue(cfg, old(Pool())[j].rt, env.now, env.picks[j]).1.Granted?
                  || (!old(Pool())[j].connected && !env.connectable[j])
      ensures Pick(Pool(), states.rows, result) ==
              TryInOrder(cfg, FilterAll(old(Pool()), role, env), old(states.rows), order, env)
    {
      ghost var pool0, db0 := Pool(), states.rows;
      var ranked := RankCandidates(role, env);
      order := ranked;
      SortedOrderIsLRU(cfg, pool0, db0, role, env, order);
      result := TryCandidates(ranked, env);
      AnswerMeans(cfg, pool0, db0, role, env, ranked);
    }

    /** What an answer, or none, says about the limiters before the call. */
    static lemma {:induction false} AnswerMeans(cfg: Config, pool: seq<Account>, db: StateTable, role: Role, env: Env,
        order: seq<nat>)
      requires ValidEnv(cfg, pool, env) && Ranks(pool, role, env.now, order)
      ensures var pick := TryInOrder(cfg, FilterAll(pool, role, env), db, order, env);
              && |pick.pool| == |pool|
              && (pick.result.Some? ==>
                    var i := pick.result.value;
                    && i < |pool| && pool[i].role == role && pick.pool[i].connected
                    && CanContinue(cfg, pool[i].rt, env.now, env.picks[i]).1.Granted?
                    && pick.pool[i].rt == CanContinue(cfg, pool[i].rt, env.now, env.picks[i]).0)
              && (pick.result.None? ==>
                    forall j :: 0 <= j < |pool| && pool[j].role == role ==>
                      || !CanContinue(cfg, pool[j].rt, env.now, env.picks[j]).1.Granted?
                      || (!pool[j].connected && !env.connectable[j]))
    {
      SortedOrderIsLRU(cfg, pool, db, role, env, order);
      var pick := TryInOrder(cfg, FilterAll(pool, role, env), db, order, env);
      if pick.result.Some? {
        var touch := EachTouched(cfg, pool, db, role, env, order, pick.result.value);
      } else {
        SameSize(cfg, FilterAll(pool, role, env), db, order, env);
        forall j: nat | j < |pool| && pool[j].role == role
          ensures !CanContinue(cfg, pool[j].rt, env.now, env.picks[j]).1.Granted?
                  || (!pool[j].connected && !env.connectable[j])
        {
          NoneHandedOut(cfg, pool, role, env, j);
        }
      }
    }

    static lemma {:induction false} SameSize(cfg: Config, pool: seq<Account>, db: StateTable, order: seq<nat>, env: Env)
      requires ValidEnv(cfg, pool, env) && Orders(pool, order)
      ensures |TryInOrder(cfg, pool, db, order, env).pool| == |pool|
    {
      if pool == [] {
        assert order == [] by {
          if order != [] {
            HeadIsIn(order);
          }
        }
      } else {
        TriedOrNot(cfg, pool, db, order, env, 0);
      }
    }

    method MarkBanned(i: nat, now: real, seconds: int)
      requires Valid() && i < |accounts|
      modifies Footprint(), states`rows
      ensures Valid() && accounts == old(accounts)
      ensures Pool() == old(Pool())[i := WithBan(old(Pool())[i], Some(now + seconds as real))]
      ensures states.rows == RowBanned(old(states.rows), accounts[i].id, now, seconds)
    {
      accounts[i].limiter.MarkLongBan(now, seconds);
      states.MarkAccountBanned(accounts[i].id, now, seconds);
    }

    /** The account stays in the pool, but no later load brings it back. */
    method MarkDead(i: nat)
      requires Valid() && i < |accounts|
      modifies Footprint(), states
      ensures Valid() && accounts == old(accounts)
      ensures Pool() == old(Pool())[i := old(Pool())[i].(connected := false)]
      ensures states.rows == RowStatus(old(states.rows), accounts[i].id, DeadStatus)
      ensures states.disabled == old(states.disabled) + {accounts[i].id}
    {
      states.MarkAccountDead(accounts[i].id);
      accounts[i].connected := false;
    }

    method CheckRecoveries(now: real) returns (recovered: set<nat>)
      requires Valid()
      modifies Footprint(), states`rows
      ensures Valid() && accounts == old(accounts)
      ensures Pool() == Lifted(old(Pool()), old(states.rows), now)
      ensures states.rows == BansExpired(old(states.rows), now)
      ensures recovered == set id | id in old(states.rows) && Expired(old(states.rows)[id], now)
    {
      ghost var pool0 := Pool();
      ghost var goal := Lifted(pool0, states.rows, now);
      ghost var db := states.rows;
      recovered := states.ExpireBans(now);
      for i := 0 to |accounts|
        invariant accounts == old(accounts) && states.rows == BansExpired(db, now)
        invariant forall j :: 0 <= j < |accounts| ==> accounts[j].View() == if j < i then goal[j] else pool0[j]
      {
        if accounts[i].id in recovered {
          accounts[i].limiter.Unban();
        }
      }
    }
  }
}
