/** The account pool as values: least-recently-used selection, and what loading, connecting, bans and
    recoveries do to memory and to the account_states table. */
module Accounts {
  import opened Base
  import opened RateLimiter
  import opened Grants

  datatype Role = Scanner | Discovery | Monitor

  datatype Account = Account(id: nat, role: Role, rt: Runtime, connected: bool, failures: nat)

  /** What one get_available call meets besides the pool: the time, each account's random draws and
      whether a connection attempt would succeed. */
  datatype Env = Env(now: real, picks: seq<Picks>, connectable: seq<bool>)

  predicate ValidEnv(cfg: Config, pool: seq<Account>, env: Env) {
    && |env.picks| == |env.connectable| == |pool|
    && forall i :: 0 <= i < |pool| ==> ValidPicks(cfg, env.picks[i])
  }

  // ---------------- selection, as functions ----------------

  /** last_action_at, or the epoch. */
  function Key(a: Account): real {
    if a.rt.lastActionAt.Some? then a.rt.lastActionAt.value else 0.0
  }

  predicate Candidate(a: Account, role: Role, now: real) {
    a.role == role && !BanActive(a.rt, now) && !RestActive(a.rt, now)
  }

  /** The side effects of the is_banned / is_resting filter. */
  function Filtered(a: Account, role: Role, now: real, p: Picks): Account {
    if a.role != role || BanActive(a.rt, now) then a
    else a.(rt := AfterRestCheck(AfterBanCheck(a.rt, now), now, p))
  }

  function FilterAll(pool: seq<Account>, role: Role, env: Env): seq<Account>
    requires |env.picks| == |pool|
  {
    seq(|pool|, i requires 0 <= i < |pool| => Filtered(pool[i], role, env.now, env.picks[i]))
  }

  function Candidates(pool: seq<Account>, role: Role, now: real, n: nat): seq<nat>
    requires n <= |pool|
  {
    if n == 0 then []
    else Candidates(pool, role, now, n - 1) + if Candidate(pool[n - 1], role, now) then [n - 1] else []
  }

  lemma {:induction false} CandidatesSpec(pool: seq<Account>, role: Role, now: real, n: nat)
    requires n <= |pool|
    ensures var order := Candidates(pool, role, now, n);
            && (forall i: nat :: i in order <==> i < n && Candidate(pool[i], role, now))
            && (forall x :: 0 <= x < |order| ==> order[x] < n)
            && (forall x, y :: 0 <= x < y < |order| ==> order[x] < order[y])
  {
    if n > 0 {
      CandidatesSpec(pool, role, now, n - 1);
    }
  }

  predicate Orders(pool: seq<Account>, order: seq<nat>) {
    && (forall x :: 0 <= x < |order| ==> order[x] < |pool|)
    && (forall x, y :: 0 <= x < y < |order| ==> order[x] != order[y])
  }

  /** Sort order: last action first, pool position on ties. */
  predicate Precedes(pool: seq<Account>, i: nat, j: nat)
    requires i < |pool| && j < |pool|
  {
    Key(pool[i]) < Key(pool[j]) || (Key(pool[i]) == Key(pool[j]) && i < j)
  }

  predicate Sorted(pool: seq<Account>, order: seq<nat>)
    requires Orders(pool, order)
  {
    forall x, y :: 0 <= x < y < |order| ==> Precedes(pool, order[x], order[y])
  }

  /** order is the candidates of the role, sorted. */
  ghost predicate Ranks(pool: seq<Account>, role: Role, now: real, order: seq<nat>) {
    && Orders(pool, order) && Sorted(pool, order)
    && forall i: nat :: i in order <==> i < |pool| && Candidate(pool[i], role, now)
  }

  /** What connecting leaves: connected, or one more failure. */
  function Connected(a: Account, ok: bool): Account {
    if ok then a.(connected := true) else a.(failures := a.failures + 1)
  }

  /** Trying one candidate: can_continue, then connect if needed. */
  function Attempt(cfg: Config, a: Account, now: real, p: Picks, connectable: bool): (Account, bool) {
    var (rt, answer) := CanContinue(cfg, a.rt, now, p);
    if !answer.Granted? then (a.(rt := rt), false)
    else if a.connected then (a.(rt := rt), true)
    else (Connected(a.(rt := rt), connectable), connectable)
  }

  /** _connect_one writes a status on either outcome. */
  function StatusAfter(cfg: Config, db: StateTable, a: Account, now: real, p: Picks, connectable: bool): StateTable {
    if CanContinue(cfg, a.rt, now, p).1.Granted? && !a.connected
    then RowStatus(db, a.id, if connectable then Idle else Disconnected)
    else db
  }

  datatype Pick = Pick(pool: seq<Account>, db: StateTable, result: Option<nat>)

  function TryInOrder(cfg: Config, pool: seq<Account>, db: StateTable, order: seq<nat>, env: Env): Pick
    requires ValidEnv(cfg, pool, env) && Orders(pool, order)
    decreases |order|
  {
    if order == [] then Pick(pool, db, None)
    else
      var i := order[0];
      var (a, ok) := Attempt(cfg, pool[i], env.now, env.picks[i], env.connectable[i]);
      var db' := StatusAfter(cfg, db, pool[i], env.now, env.picks[i], env.connectable[i]);
      if ok then Pick(pool[i := a], db', Some(i))
      else TryInOrder(cfg, pool[i := a], db', order[1..], env)
  }

  /** Would this account be handed out if it were tried? */
  predicate Eligible(cfg: Config, pool: seq<Account>, role: Role, env: Env, i: nat)
    requires ValidEnv(cfg, pool, env) && i < |pool|
  {
    && Candidate(pool[i], role, env.now)
    && Attempt(cfg, Filtered(pool[i], role, env.now, env.picks[i]), env.now, env.picks[i], env.connectable[i]).1
  }

  /** What any answer of get_available must satisfy: an eligible account that precedes every other
      eligible one, or nothing when none is eligible. */
  ghost predicate LeastRecentlyUsed(cfg: Config, pool: seq<Account>, role: Role, env: Env, result: Option<nat>)
    requires ValidEnv(cfg, pool, env)
  {
    match result
    case Some(i) =>
      && i < |pool| && Eligible(cfg, pool, role, env, i)
      && forall j :: 0 <= j < |pool| && Eligible(cfg, pool, role, env, j) && j != i ==> Precedes(pool, i, j)
    case None => forall j :: 0 <= j < |pool| ==> !Eligible(cfg, pool, role, env, j)
  }

  predicate Works(cfg: Config, pool: seq<Account>, env: Env, i: nat)
    requires ValidEnv(cfg, pool, env) && i < |pool|
  {
    Attempt(cfg, pool[i], env.now, env.picks[i], env.connectable[i]).1
  }

  /** TryInOrder stops at the first candidate that works. */
  lemma {:induction false} FirstThatWorks(cfg: Config, pool: seq<Account>, db: StateTable, order: seq<nat>, env: Env)
      returns (first: nat)
    requires ValidEnv(cfg, pool, env) && Orders(pool, order)
    ensures first <= |order|
    ensures forall y :: 0 <= y < first ==> !Works(cfg, pool, env, order[y])
    ensures first < |order| ==> Works(cfg, pool, env, order[first])
    ensures TryInOrder(cfg, pool, db, order, env).result == if first < |order| then Some(order[first]) else None
    decreases |order|
  {
    if order == [] || Works(cfg, pool, env, order[0]) {
      return 0;
    }
    var i := order[0];
    var pool' := pool[i := Attempt(cfg, pool[i], env.now, env.picks[i], env.connectable[i]).0];
    var db' := StatusAfter(cfg, db, pool[i], env.now, env.picks[i], env.connectable[i]);
    var later := FirstThatWorks(cfg, pool', db', order[1..], env);
    first := later + 1;
    WorksElsewhere(cfg, pool, pool', order, env);
    forall y | 0 <= y < first
      ensures !Works(cfg, pool, env, order[y])
    {
      if y > 0 {
        assert order[1..][y - 1] == order[y];
      }
    }
  }

  lemma {:induction false} WorksElsewhere(cfg: Config, pool: seq<Account>, pool': seq<Account>, order: seq<nat>,
      env: Env)
    requires ValidEnv(cfg, pool, env) && Orders(pool, order) && order != []
    requires |pool'| == |pool| && pool' == pool[order[0] := pool'[order[0]]]
    ensures Orders(pool', order[1..])
    ensures forall y :: 0 <= y < |order| - 1 ==>
              Works(cfg, pool', env, order[1..][y]) == Works(cfg, pool, env, order[y + 1])
  {
    forall y | 0 <= y < |order| - 1
      ensures Works(cfg, pool', env, order[1..][y]) == Works(cfg, pool, env, order[y + 1])
    {
      assert order[1..][y] == order[y + 1] && order[y + 1] != order[0];
    }
  }

  lemma {:induction false} FilterKeepsKey(pool: seq<Account>, role: Role, env: Env, i: nat)
    requires |env.picks| == |pool| && i < |pool|
    ensures Key(FilterAll(pool, role, env)[i]) == Key(pool[i])
  {
  }

  lemma {:induction false} FilterKeepsOrder(pool: seq<Account>, role: Role, env: Env, order: seq<nat>)
    requires |env.picks| == |pool| && Orders(pool, order)
    requires Sorted(FilterAll(pool, role, env), order)
    ensures Sorted(pool, order)
  {
    var filtered := FilterAll(pool, role, env);
    forall x, y | 0 <= x < y < |order|
      ensures Precedes(pool, order[x], order[y])
    {
      FilterKeepsKey(pool, role, env, order[x]);
      FilterKeepsKey(pool, role, env, order[y]);
      assert Precedes(filtered, order[x], order[y]);
    }
  }

  /** Trying the candidates in sort order answers with the least recently used eligible account. */
  lemma {:induction false} SortedOrderIsLRU(cfg: Config, pool: seq<Account>, db: StateTable, role: Role, env: Env,
      order: seq<nat>)
    requires ValidEnv(cfg, pool, env) && Ranks(pool, role, env.now, order)
    ensures LeastRecentlyUsed(cfg, pool, role, env,
                              TryInOrder(cfg, FilterAll(pool, role, env), db, order, env).result)
  {
    var filtered := FilterAll(pool, role, env);
    var first := FirstThatWorks(cfg, filtered, db, order, env);
    forall j: nat | j < |pool|
      ensures Eligible(cfg, pool, role, env, j) ==> j in order && Works(cfg, filtered, env, j)
    {
    }
    if first < |order| {
      assert order[first] in order;
      forall j | 0 <= j < |pool| && Eligible(cfg, pool, role, env, j) && j != order[first]
        ensures Precedes(pool, order[first], j)
      {
        var y :| 0 <= y < |order| && order[y] == j;
        assert y > first;
      }
    } else {
      forall j | 0 <= j < |pool|
        ensures !Eligible(cfg, pool, role, env, j)
      {
        if j in order {
          var y :| 0 <= y < |order| && order[y] == j;
        }
      }
    }
  }

  /** What a load restores and what it starts afresh, field by field. */
  lemma {:induction false} LoadedFields(m: Model, row: StateRow, work: int)
    ensures var a := LoadedAccount(m, row, work);
            && a.id == m.id && a.rt.premium == m.premium && !a.connected && a.failures == 0
            && a.rt.bannedUntil == row.banUntil && a.rt.floodsHour == row.floodsHour
            && a.rt.groupsToday == row.groupsToday && a.rt.messagesToday == row.messagesToday
            && a.rt.profilesToday == row.profilesToday && a.rt.searchesToday == row.searchesToday
            && a.rt.membersToday == 0 && a.rt.groupsHour == 0 && a.rt.hourSlot == 0 && a.rt.dayDate.None?
            && a.rt.lastFloodAt.None? && a.rt.backoff == 1.0 && a.rt.workDuration == work * 60
            && a.rt.workStartedAt.None? && a.rt.restUntil.None? && a.rt.lastActionAt.None?
  {
  }

  /** s[i..j] is the name up to case, and only white space surrounds it. */
  ghost predicate Names(s: string, i: int, j: int, name: string) {
    Surrounded(s, i, j) && j - i == |name| && forall k :: i <= k < j ==> Lower(s[k]) == name[k - i]
  }

  lemma {:induction false} StrippedName(s: string, name: string)
    requires LowerAll(RStrip(LStrip(s))) == name
    ensures exists i, j :: Names(s, i, j, name)
  {
    var x, y := StripIs(s);
    assert forall k :: x <= k < y ==> s[x..y][k - x] == s[k];
    assert Names(s, x, y, name);
  }

  lemma {:induction false} NameIsStripped(s: string, i: int, j: int, name: string)
    requires name == "discovery" || name == "monitor"
    requires Names(s, i, j, name)
    ensures LowerAll(RStrip(LStrip(s))) == name
  {
    assert Lower(s[i]) == name[0] && Lower(s[j - 1]) == name[|name| - 1];
    StripIsUnique(s, i, j);
    assert forall k :: 0 <= k < |name| ==> s[i..j][k] == s[i + k];
  }

  lemma {:induction false} NamesAreStripped(s: string, name: string)
    requires name == "discovery" || name == "monitor"
    ensures LowerAll(RStrip(LStrip(s))) == name <==> exists i, j :: Names(s, i, j, name)
  {
    if LowerAll(RStrip(LStrip(s))) == name {
      StrippedName(s, name);
    }
    forall i, j | Names(s, i, j, name)
      ensures LowerAll(RStrip(LStrip(s))) == name
    {
      NameIsStripped(s, i, j, name);
    }
  }

  /** Roles are read without regard to case or to white space around them; anything else scans. */
  lemma {:induction false} RolesAre(text: Option<string>)
    ensures RoleOf(text).Discovery? <==> text.Some? && exists i, j :: Names(text.value, i, j, "discovery")
    ensures RoleOf(text).Monitor? <==> text.Some? && exists i, j :: Names(text.value, i, j, "monitor")
  {
    var s := if text.Some? && text.value != "" then text.value else "scanner";
    NamesAreStripped(s, "discovery");
    NamesAreStripped(s, "monitor");
    if s == "scanner" {
      StripIsUnique(s, 0, 7);
      assert LowerAll(s)[0] == 's';
    }
  }

  // ---------------- what a handed-out account may do ----------------

  /** An account would be handed out exactly when it has the role, may continue, and is or can be
      connected. */
  lemma {:induction false} EligibleIff(cfg: Config, pool: seq<Account>, role: Role, env: Env, i: nat)
    requires ValidEnv(cfg, pool, env) && i < |pool|
    ensures Eligible(cfg, pool, role, env, i)
            <==> (&& pool[i].role == role && CanContinue(cfg, pool[i].rt, env.now, env.picks[i]).1.Granted?
                  && (pool[i].connected || env.connectable[i]))
  {
    var a := pool[i];
    if Candidate(a, role, env.now) {
      CheckedFirst(cfg, a.rt, env.now, env.picks[i]);
    } else {
      RefusedFirst(cfg, a.rt, env.now, env.picks[i]);
    }
  }

  lemma {:induction false} RefusedFirst(cfg: Config, rt: Runtime, now: real, p: Picks)
    ensures BanActive(rt, now) || RestActive(rt, now) ==> !CanContinue(cfg, rt, now, p).1.Granted?
  {
  }

  /** A call tries candidates only: an account is left as filtered, or as filtered and tried; the answer is
      one tried with success, and the only one. */
  lemma {:induction false} TriedOrNot(cfg: Config, pool: seq<Account>, db: StateTable, order: seq<nat>, env: Env,
      j: nat)
    requires ValidEnv(cfg, pool, env) && Orders(pool, order) && j < |pool|
    ensures var pick := TryInOrder(cfg, pool, db, order, env);
            var (tried, ok) := Attempt(cfg, pool[j], env.now, env.picks[j], env.connectable[j]);
            && |pick.pool| == |pool|
            && (pick.pool[j] == pool[j] || (j in order && pick.pool[j] == tried))
            && (pick.result == Some(j) ==> j in order && ok && pick.pool[j] == tried)
    decreases |order|
  {
    if order != [] {
      var i := order[0];
      var (a, ok) := Attempt(cfg, pool[i], env.now, env.picks[i], env.connectable[i]);
      if !ok {
        var db' := StatusAfter(cfg, db, pool[i], env.now, env.picks[i], env.connectable[i]);
        TriedOrNot(cfg, pool[i := a], db', order[1..], env, j);
      }
    }
  }

  /** What one call of get_available does to an account: it is not looked at, looked at, asked, or asked
      and handed out. */
  datatype Touch = Untouched | LookedAt | Asked | HandedOut

  /** What a touch leaves of the record. */
  function TouchedRt(cfg: Config, rt: Runtime, touch: Touch, now: real, p: Picks): Runtime {
    match touch
    case Untouched => rt
    case LookedAt => if BanActive(rt, now) then rt else AfterRestCheck(AfterBanCheck(rt, now), now, p)
    case Asked => CanContinue(cfg, rt, now, p).0
    case HandedOut => CanContinue(cfg, rt, now, p).0
  }

  /** An account handed out has the role, was granted by its own limiter at that moment, and is connected;
      the other accounts of the role were at most asked. */
  lemma {:induction false} EachTouched(cfg: Config, pool: seq<Account>, db: StateTable, role: Role, env: Env,
      order: seq<nat>, j: nat)
      returns (touch: Touch)
    requires ValidEnv(cfg, pool, env) && Ranks(pool, role, env.now, order) && j < |pool|
    ensures var pick := TryInOrder(cfg, FilterAll(pool, role, env), db, order, env);
            && |pick.pool| == |pool| && pick.pool[j].id == pool[j].id && pick.pool[j].role == pool[j].role
            && pick.pool[j].rt == TouchedRt(cfg, pool[j].rt, touch, env.now, env.picks[j])
            && (touch.HandedOut? <==> pick.result == Some(j))
            && (touch.HandedOut? ==>
                  && pool[j].role == role && pick.pool[j].connected
                  && CanContinue(cfg, pool[j].rt, env.now, env.picks[j]).1.Granted?)
            && (touch.Untouched? <==> pool[j].role != role)
  {
    var filtered := FilterAll(pool, role, env);
    var pick := TryInOrder(cfg, filtered, db, order, env);
    var a := pool[j];
    TriedOrNot(cfg, filtered, db, order, env, j);
    if a.role != role {
      return Untouched;
    }
    if Candidate(a, role, env.now) {
      CheckedFirst(cfg, a.rt, env.now, env.picks[j]);
    }
    touch := if pick.result == Some(j) then HandedOut else if pick.pool[j] == filtered[j] then LookedAt else Asked;
  }

  // ---------------- connections and their status rows ----------------

  predicate DistinctIds(pool: seq<Account>) {
    forall i, j :: 0 <= i < j < |pool| ==> pool[i].id != pool[j].id
  }

  /** What the row of an account says after its connection went from a to a'. */
  function StatusFor(a: Account, a': Account, status: AccountStatus): AccountStatus {
    if !a.connected && a'.connected then Idle else if a'.failures > a.failures then Disconnected else status
  }

  lemma {:induction false} AttemptConnects(cfg: Config, db: StateTable, a: Account, now: real, p: Picks,
      connectable: bool)
    ensures var a' := Attempt(cfg, a, now, p, connectable).0;
            var db' := StatusAfter(cfg, db, a, now, p, connectable);
            && a'.id == a.id && a.failures <= a'.failures <= a.failures + 1 && (a.connected ==> a' == a.(rt := a'.rt))
            && db'.Keys == db.Keys
            && (forall id :: id in db && id != a.id ==> db'[id] == db[id])
            && (a.id in db ==> db'[a.id] == db[a.id].(status := StatusFor(a, a', db[a.id].status)))
  {
  }

  /** After a call, the row of each account tells what happened to its connection: idle if the call connected
      it, disconnected if it tried in vain, and as before otherwise; no other column changes. */
  lemma {:induction false} StatusRows(cfg: Config, pool: seq<Account>, db: StateTable, order: seq<nat>, env: Env,
      j: nat)
    requires ValidEnv(cfg, pool, env) && Orders(pool, order) && j < |pool| && DistinctIds(pool) && pool[j].id in db
    ensures var pick := TryInOrder(cfg, pool, db, order, env);
            && |pick.pool| == |pool| && pool[j].id in pick.db
            && pool[j].failures <= pick.pool[j].failures <= pool[j].failures + 1
            && pick.db[pool[j].id] ==
               db[pool[j].id].(status := StatusFor(pool[j], pick.pool[j], db[pool[j].id].status))
    ensures j !in order ==> TryInOrder(cfg, pool, db, order, env).pool[j] == pool[j]
    decreases |order|
  {
    if order != [] {
      var i := order[0];
      var (a, ok) := Attempt(cfg, pool[i], env.now, env.picks[i], env.connectable[i]);
      AttemptConnects(cfg, db, pool[i], env.now, env.picks[i], env.connectable[i]);
      if !ok {
        var db' := StatusAfter(cfg, db, pool[i], env.now, env.picks[i], env.connectable[i]);
        StatusRows(cfg, pool[i := a], db', order[1..], env, j);
      }
    }
  }

  /** The first connections: each is connected or charged a failure, and its row says which. */
  lemma {:induction false} FirstConnections(pool: seq<Account>, db: StateTable, oks: seq<bool>, n: nat, j: nat)
    requires n <= |oks| <= |pool| && j < |pool| && DistinctIds(pool) && pool[j].id in db
    ensures var db' := ConnectedTable(db, pool, oks, n);
            && pool[j].id in db'
            && db'[pool[j].id] == db[pool[j].id].(status := if j >= n then db[pool[j].id].status
                                                            else if oks[j] then Idle else Disconnected)
    ensures var a := ConnectedPool(pool, oks)[j];
            && a.connected == (pool[j].connected || (j < |oks| && oks[j]))
            && a.failures == pool[j].failures + (if j < |oks| && !oks[j] then 1 else 0)
            && a.rt == pool[j].rt && a.id == pool[j].id && a.role == pool[j].role
  {
    if n > 0 {
      FirstConnections(pool, db, oks, n - 1, j);
    }
  }

  /** A row made for an account without one: idle, never banned, nothing counted. */
  lemma {:induction false} NewRowIs(today: int)
    ensures var row := NewRow(today);
            && row.status.Idle? && row.banUntil.None? && row.totalBans == 0 && row.dayDate == today
            && row.groupsToday == row.messagesToday == row.profilesToday == row.searchesToday == row.floodsHour == 0
  {
  }

  /** The daily reset zeroes the counters and the floods of earlier days' rows, and nothing else. */
  lemma {:induction false} DailyReset(db: StateTable, today: int, id: nat)
    requires id in db
    ensures var row, row' := db[id], DayReset(db, today)[id];
            && row'.status == row.status && row'.banUntil == row.banUntil && row'.totalBans == row.totalBans
            && (row.dayDate >= today ==> row' == row)
            && (row.dayDate < today ==>
                  && row'.dayDate == today && row'.floodsHour == 0
                  && row'.groupsToday == row'.messagesToday == row'.profilesToday == row'.searchesToday == 0)
    ensures DayReset(db, today).Keys == db.Keys
  {
  }

  /** The order in plain terms: an account that never acted comes before any that did since the epoch; of two
      that did, the one whose action is older; of equals, the one earlier in the pool. */
  lemma {:induction false} OrderIs(pool: seq<Account>, i: nat, j: nat)
    requires i < |pool| && j < |pool|
    ensures pool[i].rt.lastActionAt.None? && pool[j].rt.lastActionAt.Some? && pool[j].rt.lastActionAt.value > 0.0 ==>
              Precedes(pool, i, j) && !Precedes(pool, j, i)
    ensures pool[i].rt.lastActionAt.Some? && pool[j].rt.lastActionAt.Some? ==>
              (Precedes(pool, i, j) <==>
                || pool[i].rt.lastActionAt.value < pool[j].rt.lastActionAt.value
                || (pool[i].rt.lastActionAt == pool[j].rt.lastActionAt && i < j))
    ensures pool[i].rt.lastActionAt.None? && pool[j].rt.lastActionAt.None? ==> (Precedes(pool, i, j) <==> i < j)
  {
  }

  /** With no answer, every account of the role is refused by its limiter, or cannot be connected. */
  lemma {:induction false} NoneHandedOut(cfg: Config, pool: seq<Account>, role: Role, env: Env, j: nat)
    requires ValidEnv(cfg, pool, env) && LeastRecentlyUsed(cfg, pool, role, env, None)
    requires j < |pool| && pool[j].role == role
    ensures !CanContinue(cfg, pool[j].rt, env.now, env.picks[j]).1.Granted?
            || (!pool[j].connected && !env.connectable[j])
  {
    EligibleIff(cfg, pool, role, env, j);
  }

  /** The order is forced: there is one ranking of the candidates. */
  lemma {:induction false} RankingIsUnique(pool: seq<Account>, role: Role, now: real, a: seq<nat>, b: seq<nat>)
    requires Ranks(pool, role, now, a) && Ranks(pool, role, now, b)
    ensures a == b
  {
    SortedIsUnique(pool, a, b);
  }

  lemma {:induction false} SortedIsUnique(pool: seq<Account>, a: seq<nat>, b: seq<nat>)
    requires Orders(pool, a) && Orders(pool, b) && Sorted(pool, a) && Sorted(pool, b)
    requires forall i: nat :: i in a <==> i in b
    ensures a == b
    decreases |a|
  {
    if a == [] {
      if b != [] {
        HeadIsIn(b);
      }
      return;
    }
    assert a[0] in b && b[0] in a;
    var x :| 0 <= x < |a| && a[x] == b[0];
    var y :| 0 <= y < |b| && b[y] == a[0];
    FirstPrecedes(pool, a, x);
    FirstPrecedes(pool, b, y);
    RestOf(pool, a);
    RestOf(pool, b);
    SortedIsUnique(pool, a[1..], b[1..]);
    assert a == [a[0]] + a[1..] && b == [b[0]] + b[1..];
  }

  lemma {:induction false} HeadIsIn(order: seq<nat>)
    requires order != []
    ensures order[0] in order
  {
  }

  lemma {:induction false} FirstPrecedes(pool: seq<Account>, order: seq<nat>, x: nat)
    requires Orders(pool, order) && Sorted(pool, order) && x < |order|
    ensures order[x] == order[0] || Precedes(pool, order[0], order[x])
  {
  }

  lemma {:induction false} RestOf(pool: seq<Account>, order: seq<nat>)
    requires Orders(pool, order) && order != []
    ensures forall i: nat :: i in order[1..] <==> i in order && i != order[0]
  {
    assert order == [order[0]] + order[1..];
  }

  // ---------------- bans, as functions ----------------

  datatype AccountStatus = Idle | BannedStatus | Disconnected | DeadStatus

  datatype StateRow = StateRow(
    status: AccountStatus,
    banUntil: Option<real>,
    totalBans: nat,
    dayDate: int,
    groupsToday: int,
    messagesToday: int,
    profilesToday: int,
    searchesToday: int,
    floodsHour: int)

  type StateTable = map<nat, StateRow>

  function NewRow(today: int): StateRow {
    StateRow(Idle, None, 0, today, 0, 0, 0, 0, 0)
  }

  /** reset_daily_counters */
  function DayReset(db: StateTable, today: int): StateTable {
    map id | id in db ::
      if db[id].dayDate < today
      then db[id].(dayDate := today, groupsToday := 0, messagesToday := 0, profilesToday := 0, searchesToday := 0,
                   floodsHour := 0)
      else db[id]
  }

  /** mark_account_banned */
  function RowBanned(db: StateTable, id: nat, now: real, seconds: int): StateTable {
    if id in db then
      db[id := db[id].(status := BannedStatus, banUntil := Some(now + seconds as real),
                       totalBans := db[id].totalBans + 1)]
    else db
  }

  function RowStatus(db: StateTable, id: nat, status: AccountStatus): StateTable {
    if id in db then db[id := db[id].(status := status)] else db
  }

  predicate Expired(row: StateRow, now: real) {
    row.status.BannedStatus? && row.banUntil.Some? && row.banUntil.value < now
  }

  /** expire_bans */
  function BansExpired(db: StateTable, now: real): StateTable {
    map id | id in db :: if Expired(db[id], now) then db[id].(status := Idle, banUntil := None) else db[id]
  }

  function WithBan(a: Account, until: Option<real>): Account {
    a.(rt := a.rt.(bannedUntil := until))
  }

  /** check_recoveries, in memory: the accounts whose rows expire lose their ban. */
  function Lifted(pool: seq<Account>, db: StateTable, now: real): seq<Account> {
    seq(|pool|, i requires 0 <= i < |pool| =>
      if pool[i].id in db && Expired(db[pool[i].id], now) then WithBan(pool[i], None) else pool[i])
  }

  /** A telegram_accounts row. */
  datatype Model = Model(id: nat, role: Option<string>, premium: bool)

  /** A role column that is missing, empty or unknown means scanner. */
  function RoleOf(text: Option<string>): Role {
    var role := LowerAll(RStrip(LStrip(if text.Some? && text.value != "" then text.value else "scanner")));
    if role == "discovery" then Discovery else if role == "monitor" then Monitor else Scanner
  }

  /** get_enabled_accounts: the rows not disabled, in table order. */
  function EnabledModels(catalog: seq<Model>, disabled: set<nat>): seq<Model>
    decreases |catalog|
  {
    if catalog == [] then []
    else
      var n := |catalog| - 1;
      EnabledModels(catalog[..n], disabled) + if catalog[n].id in disabled then [] else [catalog[n]]
  }

  /** Exactly the accounts of the catalog that are not disabled are loaded. */
  lemma {:induction false} EnabledModelsAre(catalog: seq<Model>, disabled: set<nat>)
    ensures forall m :: m in EnabledModels(catalog, disabled) <==> m in catalog && m.id !in disabled
    decreases |catalog|
  {
    if catalog != [] {
      var n := |catalog| - 1;
      EnabledModelsAre(catalog[..n], disabled);
      assert catalog == catalog[..n] + [catalog[n]];
    }
  }

  /** The runtime load_all builds from a state row; everything it does not read starts fresh. */
  function LoadedAccount(m: Model, row: StateRow, work: int): Account {
    Account(m.id, RoleOf(m.role),
      Runtime(m.premium, row.groupsToday, 0, row.messagesToday, row.profilesToday, row.searchesToday,
              0, 0, row.floodsHour, None, 1.0, None, work * 60, None, row.banUntil, None, None),
      false, 0)
  }

  /** ensure_account_state for every model. */
  function WithRows(db: StateTable, models: seq<Model>, today: int): StateTable
    decreases |models|
  {
    if models == [] then db
    else WithRow(WithRows(db, models[..|models| - 1], today), models[|models| - 1].id, today)
  }

  function WithRow(db: StateTable, id: nat, today: int): StateTable {
    if id in db then db else db[id := NewRow(today)]
  }

  lemma {:induction false} RowsAdded(db: StateTable, models: seq<Model>, today: int)
    ensures var db' := WithRows(db, models, today);
            && (forall id :: id in db ==> id in db' && db'[id] == db[id])
            && (forall i :: 0 <= i < |models| ==> models[i].id in db')
            && (forall id :: id in db' && id !in db ==> db'[id] == NewRow(today))
    decreases |models|
  {
    if models != [] {
      RowsAdded(db, models[..|models| - 1], today);
      forall i | 0 <= i < |models|
        ensures models[i].id in WithRows(db, models, today)
      {
        if i < |models| - 1 {
          assert models[..|models| - 1][i] == models[i];
        }
      }
    }
  }

  /** What load_all does to the table before connecting: daily reset, expired bans, missing rows. */
  function LoadedTable(db: StateTable, models: seq<Model>, now: real): StateTable {
    WithRows(BansExpired(DayReset(db, Slot(now, DAY)), now), models, Slot(now, DAY))
  }

  function LoadedPool(models: seq<Model>, db: StateTable, works: seq<int>): (pool: seq<Account>)
    requires |works| == |models| && forall i :: 0 <= i < |models| ==> models[i].id in db
  {
    seq(|models|, i requires 0 <= i < |models| => LoadedAccount(models[i], db[models[i].id], works[i]))
  }

  /** The first connections: accounts 0 to |oks| - 1, one after the other. */
  function ConnectedPool(pool: seq<Account>, oks: seq<bool>): (after: seq<Account>)
    requires |oks| <= |pool|
  {
    seq(|pool|, i requires 0 <= i < |pool| => if i < |oks| then Connected(pool[i], oks[i]) else pool[i])
  }

  function ConnectedTable(db: StateTable, pool: seq<Account>, oks: seq<bool>, n: nat): StateTable
    requires n <= |oks| <= |pool|
  {
    if n == 0 then db
    else RowStatus(ConnectedTable(db, pool, oks, n - 1), pool[n - 1].id, if oks[n - 1] then Idle else Disconnected)
  }
}
