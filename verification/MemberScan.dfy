/** parse_members: users gathered over up to 36 alphabet queries, deduplicated, capped, and flushed
    in batches over two insert-if-absent tables. */
module MemberScan {
  import opened Base
  import opened Inserts
  import opened RateLimiter

  const BATCH: nat := 100

  datatype Status = Owner | Administrator | OtherStatus

  datatype Member = Member(uid: Option<int>, name: string, isBot: bool, status: Option<Status>)

  datatype Role = Creator | Admin | Plain

  datatype User = User(name: string, isBot: bool)

  /** One get_chat_members(query=...) stream; with `fails` it raises after its last member. */
  datatype Query = Query(members: seq<Member>, fails: bool)

  /** What the client answers: the member count, the RECENT listing and the alphabet queries. */
  datatype Client = Client(membersCount: int, recent: Query, alphabet: seq<Query>)

  /** `if uid`: present and not zero. */
  predicate Known(m: Member) {
    m.uid.Some? && m.uid.value != 0
  }

  function Id(m: Member): int {
    if m.uid.Some? then m.uid.value else 0
  }

  function RoleOf(m: Member): Role {
    if m.status == Some(Owner) then Creator else if m.status == Some(Administrator) then Admin else Plain
  }

  // ---------------- who is yielded ----------------

  predicate SmallGroup(c: Client, threshold: int) {
    c.membersCount != 0 && c.membersCount < threshold
  }

  /** All that the first n queries streamed. */
  function FlatUpTo(qs: seq<Query>, n: nat): seq<Member>
    requires n <= |qs|
  {
    if n == 0 then [] else FlatUpTo(qs, n - 1) + qs[n - 1].members
  }

  function Flat(qs: seq<Query>): seq<Member> {
    FlatUpTo(qs, |qs|)
  }

  function Ids(ms: seq<Member>): set<int> {
    set i | 0 <= i < |ms| && Known(ms[i]) :: Id(ms[i])
  }

  /** The members with a new id, in stream order. */
  function Unseen(ms: seq<Member>): seq<Member>
    decreases |ms|
  {
    if ms == [] then []
    else
      var before := Unseen(ms[..|ms| - 1]);
      var m := ms[|ms| - 1];
      if Known(m) && Id(m) !in Ids(before) then before + [m] else before
  }

  /** Those of the first i members that pass `if not uid: continue`. */
  function KnownUpTo(ms: seq<Member>, i: nat): (known: seq<Member>)
    requires i <= |ms|
    ensures |known| <= i
  {
    if i == 0 then []
    else
      var before := KnownUpTo(ms, i - 1);
      if Known(ms[i - 1]) then before + [ms[i - 1]] else before
  }

  function KnownOnly(ms: seq<Member>): seq<Member> {
    KnownUpTo(ms, |ms|)
  }

  /** What _iter_members yields, and whether it ends in an exception. */
  function Yield(c: Client, threshold: int): (seq<Member>, bool) {
    if SmallGroup(c, threshold) then (c.recent.members, c.recent.fails) else (Unseen(Flat(c.alphabet)), false)
  }

  /** The members parse_members takes, cap permitting. */
  function Offered(c: Client, threshold: int): seq<Member> {
    KnownOnly(Yield(c, threshold).0)
  }

  predicate DistinctIds(ms: seq<Member>) {
    forall i, j :: 0 <= i < j < |ms| ==> Id(ms[i]) != Id(ms[j])
  }

  lemma {:induction false} IdsSnoc(ms: seq<Member>, m: Member)
    ensures Ids(ms + [m]) == Ids(ms) + if Known(m) then {Id(m)} else {}
  {
    var longer := ms + [m];
    forall id | id in Ids(ms)
      ensures id in Ids(longer)
    {
      var i :| 0 <= i < |ms| && Known(ms[i]) && Id(ms[i]) == id;
      assert longer[i] == ms[i];
    }
    if Known(m) {
      assert longer[|ms|] == m;
    }
  }

  lemma {:induction false} UnseenSnoc(ms: seq<Member>, m: Member)
    ensures var out := Unseen(ms);
            Unseen(ms + [m]) == (if Known(m) && Id(m) !in Ids(out) then out + [m] else out)
            && Ids(out + [m]) == Ids(out) + if Known(m) then {Id(m)} else {}
  {
    assert (ms + [m])[..|ms|] == ms;
    IdsSnoc(Unseen(ms), m);
  }

  /** What has been yielded is not taken back by what streams later. */
  lemma {:induction false} UnseenPrefix(a: seq<Member>, b: seq<Member>)
    requires a <= b
    ensures Unseen(a) <= Unseen(b)
    decreases |b|
  {
    if |a| < |b| {
      UnseenPrefix(a, b[..|b| - 1]);
    } else {
      assert a == b;
    }
  }

  lemma {:induction false} FlatPrefix(qs: seq<Query>, i: nat, j: nat)
    requires i <= j <= |qs|
    ensures FlatUpTo(qs, i) <= FlatUpTo(qs, j)
  {
    if i < j {
      FlatPrefix(qs, i, j - 1);
    }
  }

  predicate AllKnown(ms: seq<Member>) {
    forall i :: 0 <= i < |ms| ==> Known(ms[i])
  }

  lemma {:induction false} DistinctSnoc(ms: seq<Member>, m: Member)
    requires DistinctIds(ms) && AllKnown(ms) && Known(m) && Id(m) !in Ids(ms)
    ensures DistinctIds(ms + [m]) && AllKnown(ms + [m])
  {
    forall i | 0 <= i < |ms|
      ensures Id(ms[i]) != Id(m)
    {
      assert Id(ms[i]) in Ids(ms);
    }
  }

  /** Every id met in the streams is yielded exactly once, whichever queries fail midway. */
  lemma {:induction false} UnseenOnce(ms: seq<Member>)
    ensures var out := Unseen(ms);
            && DistinctIds(out) && (forall i :: 0 <= i < |out| ==> Known(out[i]))
            && Ids(out) == Ids(ms) && |out| == |Ids(ms)|
    decreases |ms|
  {
    if ms != [] {
      var init, m := ms[..|ms| - 1], ms[|ms| - 1];
      UnseenOnce(init);
      assert ms == init + [m];
      UnseenSnoc(init, m);
      IdsSnoc(init, m);
      if Known(m) && Id(m) !in Ids(init) {
        DistinctSnoc(Unseen(init), m);
      }
    }
  }

  lemma {:induction false} KnownUpToIsAll(ms: seq<Member>, i: nat)
    requires i <= |ms| && forall k :: 0 <= k < i ==> Known(ms[k])
    ensures KnownUpTo(ms, i) == ms[..i]
  {
    if i > 0 {
      KnownUpToIsAll(ms, i - 1);
    }
  }

  lemma {:induction false} KnownOnlyIsAll(ms: seq<Member>)
    requires forall i :: 0 <= i < |ms| ==> Known(ms[i])
    ensures KnownOnly(ms) == ms
  {
    KnownUpToIsAll(ms, |ms|);
  }

  // ---------------- what is stored ----------------

  function UserRows(ms: seq<Member>): (rows: seq<(int, User)>)
    ensures |rows| == |ms|
  {
    seq(|ms|, i requires 0 <= i < |ms| => (Id(ms[i]), User(ms[i].name, ms[i].isBot)))
  }

  function MembershipRows(group: int, ms: seq<Member>): (rows: seq<((int, int), Role)>)
    ensures |rows| == |ms|
  {
    seq(|ms|, i requires 0 <= i < |ms| => ((group, Id(ms[i])), RoleOf(ms[i])))
  }

  /** The two batch lists, filled, flushed and cleared together. */
  datatype Batches = Batches(users: seq<(int, User)>, memberships: seq<((int, int), Role)>)

  function BatchesOf(group: int, ms: seq<Member>): Batches {
    Batches(UserRows(ms), MembershipRows(group, ms))
  }

  lemma {:induction false} BatchesSnoc(group: int, ms: seq<Member>, m: Member)
    ensures BatchesOf(group, ms + [m]) ==
            Batches(UserRows(ms) + [(Id(m), User(m.name, m.isBot))],
                    MembershipRows(group, ms) + [((group, Id(m)), RoleOf(m))])
  {
  }

  datatype Saved = Saved(users: map<int, User>, memberships: map<(int, int), Role>, rt: Runtime, largest: nat)

  function Flushed(s: Saved, group: int, batch: seq<Member>): Saved {
    Saved(InsertAbsent(s.users, UserRows(batch)),
          InsertAbsent(s.memberships, MembershipRows(group, batch)),
          Bumped(s.rt, MembersToday, |batch|),
          Max(s.largest, |batch|))
  }

  /** The whole batches among the first n offered members. */
  function After(s: Saved, group: int, ms: seq<Member>, n: nat): Saved
    requires n <= |ms|
  {
    var done := Whole(n, BATCH);
    Saved(InsertAbsent(s.users, UserRows(ms[..done])),
          InsertAbsent(s.memberships, MembershipRows(group, ms[..done])),
          Bumped(s.rt, MembersToday, done),
          if done == 0 then s.largest else Max(s.largest, BATCH))
  }

  lemma {:induction false} InsertPart(s: Saved, group: int, ms: seq<Member>, i: nat, j: nat)
    requires i <= j <= |ms|
    ensures InsertAbsent(InsertAbsent(s.users, UserRows(ms[..i])), UserRows(ms[i..j])) ==
            InsertAbsent(s.users, UserRows(ms[..j]))
    ensures InsertAbsent(InsertAbsent(s.memberships, MembershipRows(group, ms[..i])),
                         MembershipRows(group, ms[i..j])) ==
            InsertAbsent(s.memberships, MembershipRows(group, ms[..j]))
  {
    var us, gs := UserRows(ms), MembershipRows(group, ms);
    assert UserRows(ms[..i]) == us[..i] && UserRows(ms[i..j]) == us[i..j] && UserRows(ms[..j]) == us[..j];
    assert MembershipRows(group, ms[..i]) == gs[..i] && MembershipRows(group, ms[i..j]) == gs[i..j]
           && MembershipRows(group, ms[..j]) == gs[..j];
    InsertSlice(s.users, us, i, j);
    InsertSlice(s.memberships, gs, i, j);
  }

  lemma {:induction false} AfterFull(s: Saved, group: int, ms: seq<Member>, n: nat)
    requires n < |ms| && n + 1 - Whole(n, BATCH) >= BATCH
    ensures After(s, group, ms, n + 1) == Flushed(After(s, group, ms, n), group, ms[Whole(n, BATCH)..n + 1])
  {
    var done := Whole(n, BATCH);
    assert |ms[done..n + 1]| == BATCH && Whole(n + 1, BATCH) == n + 1;
    InsertPart(s, group, ms, done, n + 1);
  }

  lemma {:induction false} AfterMore(s: Saved, group: int, ms: seq<Member>, n: nat)
    requires n < |ms| && n + 1 - Whole(n, BATCH) < BATCH
    ensures After(s, group, ms, n + 1) == After(s, group, ms, n) && Whole(n + 1, BATCH) == Whole(n, BATCH)
  {
  }

  function Wrapped(s: Saved, group: int, batch: seq<Member>): Saved {
    var s' := if batch == [] then s else Flushed(s, group, batch);
    s'.(rt := Bumped(s'.rt, GroupsToday, 1))
  }

  lemma {:induction false} WrappedIsUnion(s: Saved, group: int, ms: seq<Member>, whole: nat, n: nat)
    requires whole <= n <= |ms| && Whole(whole, BATCH) <= n
    ensures var s' := Wrapped(After(s, group, ms, whole), group, ms[Whole(whole, BATCH)..n]);
            && s'.users == InsertAbsent(s.users, UserRows(ms[..n]))
            && s'.memberships == InsertAbsent(s.memberships, MembershipRows(group, ms[..n]))
            && s'.rt == Bumped(Bumped(s.rt, MembersToday, n), GroupsToday, 1)
  {
    InsertPart(s, group, ms, Whole(whole, BATCH), n);
  }

  /** How many offered members are handled: the cap is tested after the first, so it acts as at
      least 1. */
  function Handled(offered: nat, cap: int): nat {
    Min(offered, Max(cap, 1))
  }

  /** The first of the writes of a flush that raises. */
  datatype Fault = UsersFail | MembershipsFail

  function FlushedUpTo(s: Saved, group: int, batch: seq<Member>, fault: Option<Fault>): Saved {
    match fault
    case Some(UsersFail) => s
    case Some(MembershipsFail) => s.(users := InsertAbsent(s.users, UserRows(batch)))
    case None => Flushed(s, group, batch)
  }

  /** How many members go through the full-batch test: the one that reaches the cap does not. */
  function Tested(offered: nat, cap: int): nat {
    Min(offered, Max(cap, 1) - 1)
  }

  /** What is saved when the flush that the n-th handled member triggers raises. */
  function Cut(s: Saved, group: int, ms: seq<Member>, n: nat, fault: Option<Fault>): Saved
    requires 0 < n <= |ms|
  {
    FlushedUpTo(After(s, group, ms, n - 1), group, ms[Whole(n - 1, BATCH)..n], fault)
  }

  /** How a scan ends. */
  datatype End = CutAt(n: nat) | StreamBreaks | LastBatchLost(fault: Fault) | Complete

  function EndOf(offered: nat, fails: bool, cap: int, faults: nat -> Option<Fault>, endFault: Option<Fault>): End {
    var tested := Tested(offered, cap);
    var first := FirstFault(faults, tested, BATCH);
    if first.Some? then CutAt(first.value)
    else if fails && offered < Max(cap, 1) then StreamBreaks
    else if endFault.Some? && Whole(tested, BATCH) < Handled(offered, cap) then LastBatchLost(endFault.value)
    else Complete
  }

  /** What a scan leaves, by how it ends. */
  function Left(s: Saved, group: int, ms: seq<Member>, cap: int, end: End, faults: nat -> Option<Fault>): Saved
    requires end.CutAt? ==> 0 < end.n <= |ms|
  {
    var tested, n := Tested(|ms|, cap), Handled(|ms|, cap);
    var rest := ms[Whole(tested, BATCH)..n];
    match end
    case CutAt(m) => Cut(s, group, ms, m, faults(m))
    case StreamBreaks => After(s, group, ms, tested)
    case LastBatchLost(fault) => FlushedUpTo(After(s, group, ms, tested), group, rest, Some(fault))
    case Complete => Wrapped(After(s, group, ms, tested), group, rest)
  }

  /** Users hold the first u of the members, memberships the first w, and exactly those w are counted. */
  predicate Prefixes(left: Saved, s: Saved, group: int, ms: seq<Member>, u: nat, w: nat) {
    && w <= u <= |ms|
    && left.users == InsertAbsent(s.users, UserRows(ms[..u]))
    && left.memberships == InsertAbsent(s.memberships, MembershipRows(group, ms[..w]))
    && left.rt.(groupsToday := 0, groupsHour := 0) ==
       s.rt.(membersToday := s.rt.membersToday + w, groupsToday := 0, groupsHour := 0)
  }

  /** A flush cut short leaves whole batches, and at most the users of one batch more. */
  lemma {:induction false} CutFlush(s: Saved, group: int, ms: seq<Member>, tested: nat, n: nat, fault: Fault)
      returns (u: nat, w: nat)
    requires tested <= n <= |ms| && Whole(tested, BATCH) <= n
    ensures var left := FlushedUpTo(After(s, group, ms, tested), group, ms[Whole(tested, BATCH)..n], Some(fault));
            Prefixes(left, s, group, ms, u, w)
            && left.rt.groupsToday == s.rt.groupsToday && left.rt.groupsHour == s.rt.groupsHour
    ensures u <= n && Whole(w, BATCH) == w
    ensures w == Whole(tested, BATCH) && u == if fault.UsersFail? then w else n
  {
    WholeOfWhole(tested, BATCH);
    w := Whole(tested, BATCH);
    u := if fault.MembershipsFail? then n else w;
    InsertPart(s, group, ms, w, n);
  }

  /** However a scan ends, memberships hold a prefix of the handled members and users hold at least that
      prefix; cut off, the memberships are whole batches and exactly they are counted. */
  lemma {:induction false} CutOffScan(s: Saved, group: int, ms: seq<Member>, cap: int, end: End,
      faults: nat -> Option<Fault>)
      returns (u: nat, w: nat)
    requires end.CutAt? ==> 0 < end.n <= Tested(|ms|, cap) && Whole(end.n, BATCH) == end.n && faults(end.n).Some?
    ensures var left := Left(s, group, ms, cap, end, faults);
            && Prefixes(left, s, group, ms, u, w) && u <= Handled(|ms|, cap)
            && left.rt.groupsToday == s.rt.groupsToday + (if end.Complete? then 1 else 0)
            && left.rt.groupsHour == s.rt.groupsHour + if end.Complete? then 1 else 0
    ensures if end.Complete? then u == w == Handled(|ms|, cap) else Whole(w, BATCH) == w
    ensures end.CutAt? ==> w == Whole(end.n - 1, BATCH) && u == if faults(end.n) == Some(UsersFail) then w else end.n
    ensures end.StreamBreaks? ==> u == w == Whole(Tested(|ms|, cap), BATCH)
    ensures end.LastBatchLost? ==>
              w == Whole(Tested(|ms|, cap), BATCH) && u == if end.fault.UsersFail? then w else Handled(|ms|, cap)
  {
    var tested, n := Tested(|ms|, cap), Handled(|ms|, cap);
    match end
    case CutAt(m) => u, w := CutFlush(s, group, ms, m - 1, m, faults(m).value);
    case StreamBreaks =>
      BrokenScan(s, group, ms, tested);
      u, w := Whole(tested, BATCH), Whole(tested, BATCH);
    case LastBatchLost(fault) => u, w := CutFlush(s, group, ms, tested, n, fault);
    case Complete =>
      u, w := n, n;
      CompleteScan(s, group, ms, tested, n);
  }

  lemma {:induction false} BrokenScan(s: Saved, group: int, ms: seq<Member>, tested: nat)
    requires tested <= |ms|
    ensures var left, w := After(s, group, ms, tested), Whole(tested, BATCH);
            && Prefixes(left, s, group, ms, w, w) && Whole(w, BATCH) == w
            && left.rt.groupsToday == s.rt.groupsToday && left.rt.groupsHour == s.rt.groupsHour
  {
    WholeOfWhole(tested, BATCH);
  }

  lemma {:induction false} CompleteScan(s: Saved, group: int, ms: seq<Member>, tested: nat, n: nat)
    requires tested <= n <= |ms| && Whole(tested, BATCH) <= n
    ensures var left := Wrapped(After(s, group, ms, tested), group, ms[Whole(tested, BATCH)..n]);
            && Prefixes(left, s, group, ms, n, n)
            && left.rt.groupsToday == s.rt.groupsToday + 1 && left.rt.groupsHour == s.rt.groupsHour + 1
  {
    WrappedIsUnion(s, group, ms, tested, n);
  }

  /** How one turn of the loop ends. */
  datatype Turn = GoesOn | ReachesCap | Raises

  class MemberParser {
    var users: map<int, User>
    var memberships: map<(int, int), Role>
    var rt: Runtime
    ghost var largest: nat     // the largest batch written so far

    ghost function Now(): Saved
      reads this
    {
      Saved(users, memberships, rt, largest)
    }

    constructor (rt: Runtime)
      ensures Now() == Saved(map[], map[], rt, 0)
    {
      users, memberships, largest := map[], map[], 0;
      this.rt := rt;
    }

    method BulkUpsertUsers(rows: seq<(int, User)>)
      modifies this`users
      ensures users == InsertAbsent(old(users), rows)
    {
      for i := 0 to |rows|
        invariant users == InsertAbsent(old(users), rows[..i])
      {
        assert rows[..i + 1][..i] == rows[..i];
        if rows[i].0 !in users {
          users := users[rows[i].0 := rows[i].1];
        }
      }
      assert rows[..|rows|] == rows;
    }

    method BulkInsertMemberships(rows: seq<((int, int), Role)>)
      modifies this`memberships
      ensures memberships == InsertAbsent(old(memberships), rows)
    {
      for i := 0 to |rows|
        invariant memberships == InsertAbsent(old(memberships), rows[..i])
      {
        assert rows[..i + 1][..i] == rows[..i];
        if rows[i].0 !in memberships {
          memberships := memberships[rows[i].0 := rows[i].1];
        }
      }
      assert rows[..|rows|] == rows;
    }

    /** Writes both lists, up to the write that raises; batch is the members they were made from. */
    method Flush(b: Batches, ghost group: int, ghost batch: seq<Member>, fault: Option<Fault>) returns (raised: bool)
      requires b == BatchesOf(group, batch)
      modifies this
      ensures Now() == FlushedUpTo(old(Now()), group, batch, fault) && raised == fault.Some?
    {
      if fault == Some(UsersFail) {
        return true;
      }
      BulkUpsertUsers(b.users);
      if fault == Some(MembershipsFail) {
        return true;
      }
      BulkInsertMemberships(b.memberships);
      rt := rt.(membersToday := rt.membersToday + |b.users|);
      largest := if |b.users| > largest then |b.users| else largest;
      return false;
    }

    /** Inside the loop: full lists are flushed and cleared. */
    method FlushFull(b: Batches, ghost group: int, ghost s0: Saved, ghost offered: seq<Member>, ghost n: nat,
        fault: Option<Fault>) returns (rest: Batches, raised: bool)
      requires n < |offered| && b == BatchesOf(group, offered[Whole(n, BATCH)..n + 1])
      requires Now() == After(s0, group, offered, n)
      modifies this
      ensures raised <==> Whole(n + 1, BATCH) == n + 1 && fault.Some?
      ensures raised ==> Now() == Cut(s0, group, offered, n + 1, fault)
      ensures !raised ==> Now() == After(s0, group, offered, n + 1)
      ensures !raised ==> rest == BatchesOf(group, offered[Whole(n + 1, BATCH)..n + 1])
    {
      rest, raised := b, false;
      if |b.users| >= 100 {
        CutOrAfter(s0, group, offered, n, fault);
        raised := Flush(b, group, offered[Whole(n, BATCH)..n + 1], fault);
        rest := Batches([], []);
      } else {
        AfterMore(s0, group, offered, n);
      }
    }

    /** A full batch: its flush leaves the cut-off state if a write raises, and the next one otherwise. */
    static lemma {:induction false} CutOrAfter(s: Saved, group: int, ms: seq<Member>, n: nat, fault: Option<Fault>)
      requires n < |ms| && n + 1 - Whole(n, BATCH) >= BATCH
      ensures Whole(n + 1, BATCH) == n + 1 && Batches([], []) == BatchesOf(group, ms[n + 1..n + 1])
      ensures var flushed := FlushedUpTo(After(s, group, ms, n), group, ms[Whole(n, BATCH)..n + 1], fault);
              && Cut(s, group, ms, n + 1, fault) == flushed
              && (fault.None? ==> After(s, group, ms, n + 1) == flushed)
    {
      if fault.None? {
        AfterFull(s, group, ms, n);
      }
    }

    /** Before member i: total members taken below the cap, whole batches stored, the rest batched. */
    static ghost predicate Collecting(now: Saved, s0: Saved, group: int, yielded: seq<Member>, i: nat, total: nat,
                                      b: Batches, cap: int, faults: nat -> Option<Fault>)
    {
      var offered := KnownOnly(yielded);
      && i <= |yielded| && total <= |offered| && total < Max(cap, 1)
      && KnownUpTo(yielded, i) == offered[..total]
      && b == BatchesOf(group, offered[Whole(total, BATCH)..total])
      && FirstFault(faults, total, BATCH).None?
      && now == After(s0, group, offered, total)
    }

    /** After the loop, by its end or by the cap. */
    static ghost predicate Collected(now: Saved, s0: Saved, group: int, offered: seq<Member>, total: nat,
                                     b: Batches, cap: int, faults: nat -> Option<Fault>)
    {
      var tested := Tested(|offered|, cap);
      && total == Handled(|offered|, cap)
      && b == BatchesOf(group, offered[Whole(tested, BATCH)..total])
      && FirstFault(faults, tested, BATCH).None?
      && now == After(s0, group, offered, tested)
    }

    /** A flush inside the loop has raised. */
    static ghost predicate Raised(now: Saved, s0: Saved, group: int, offered: seq<Member>, cap: int,
                                  faults: nat -> Option<Fault>)
    {
      var first := FirstFault(faults, Tested(|offered|, cap), BATCH);
      first.Some? && now == Cut(s0, group, offered, first.value, faults(first.value))
    }

    /** The state that each way to end a turn leaves. */
    static ghost predicate TurnEnds(turn: Turn, now: Saved, s0: Saved, group: int, yielded: seq<Member>, i: nat,
                                    total: nat, b: Batches, cap: int, faults: nat -> Option<Fault>)
    {
      match turn
      case GoesOn => Collecting(now, s0, group, yielded, i, total, b, cap, faults)
      case ReachesCap => Collected(now, s0, group, KnownOnly(yielded), total, b, cap, faults) && total == Max(cap, 1)
      case Raises => Raised(now, s0, group, KnownOnly(yielded), cap, faults)
    }

    /** The loop of parse_members over a listing yielded as it is. */
    method Consume(group: int, yielded: seq<Member>, cap: int, faults: nat -> Option<Fault>)
        returns (total: nat, b: Batches, raised: bool)
      modifies this
      ensures if raised then Raised(Now(), old(Now()), group, KnownOnly(yielded), cap, faults)
              else Collected(Now(), old(Now()), group, KnownOnly(yielded), total, b, cap, faults)
    {
      ghost var s0 := Now();
      b, total, raised := Batches([], []), 0, false;
      Start(s0, group, yielded, cap, faults);
      for i := 0 to |yielded|
        invariant Collecting(Now(), s0, group, yielded, i, total, b, cap, faults)
      {
        var turn;
        total, b, turn := Offer(group, yielded[i], yielded, i, total, b, cap, faults, s0);
        if turn != GoesOn {
          return total, b, turn == Raises;
        }
      }
      Finish(Now(), s0, group, yielded, total, b, cap, faults);
    }

    /** `streamed` of all members have been read; seen holds the ids yielded so far. */
    static ghost predicate Reading(now: Saved, s0: Saved, group: int, all: seq<Member>, streamed: seq<Member>,
                                   seen: set<int>, total: nat, b: Batches, cap: int, faults: nat -> Option<Fault>)
    {
      && streamed <= all && seen == Ids(Unseen(streamed))
      && Collecting(now, s0, group, Unseen(all), |Unseen(streamed)|, total, b, cap, faults)
    }

    /** The loop stopped among the members streamed. */
    static ghost predicate Stopped(turn: Turn, now: Saved, s0: Saved, group: int, all: seq<Member>,
                                   streamed: seq<Member>, total: nat, b: Batches, cap: int,
                                   faults: nat -> Option<Fault>)
    {
      && turn != GoesOn && total <= |Unseen(streamed)|
      && TurnEnds(turn, now, s0, group, Unseen(all), |Unseen(streamed)|, total, b, cap, faults)
    }

    /** The same loop over the alphabet queries: each query streams until it ends or fails, new ids are
        offered as they come, and reaching the cap stops the asking. */
    method ConsumeAlphabet(group: int, queries: seq<Query>, cap: int, faults: nat -> Option<Fault>)
        returns (total: nat, b: Batches, asked: nat, raised: bool)
      modifies this
      ensures if raised then Raised(Now(), old(Now()), group, KnownOnly(Unseen(Flat(queries))), cap, faults)
              else Collected(Now(), old(Now()), group, KnownOnly(Unseen(Flat(queries))), total, b, cap, faults)
      ensures asked <= |queries| && total <= |Unseen(FlatUpTo(queries, asked))|
      ensures !raised && total < Max(cap, 1) ==> asked == |queries|
    {
      ghost var s0, all := Now(), Flat(queries);
      b, total, asked, raised := Batches([], []), 0, 0, false;
      var seen: set<int> := {};
      Start(s0, group, Unseen(all), cap, faults);
      while asked < |queries|
        invariant asked <= |queries|
        invariant Reading(Now(), s0, group, all, FlatUpTo(queries, asked), seen, total, b, cap, faults)
      {
        FlatPrefix(queries, asked + 1, |queries|);
        var turn;
        total, b, seen, turn :=
          ReadQuery(group, queries[asked].members, FlatUpTo(queries, asked), all, seen, total, b, cap, faults, s0);
        asked := asked + 1;
        if turn != GoesOn {
          return total, b, asked, turn == Raises;
        }
      }
      Finish(Now(), s0, group, Unseen(all), total, b, cap, faults);
    }

    /** One alphabet query, read until it ends or the loop stops. */
    method ReadQuery(group: int, members: seq<Member>, ghost before: seq<Member>, ghost all: seq<Member>,
        seen0: set<int>, total0: nat, b0: Batches, cap: int, faults: nat -> Option<Fault>, ghost s0: Saved)
        returns (total: nat, b: Batches, seen: set<int>, turn: Turn)
      requires before + members <= all && Reading(Now(), s0, group, all, before, seen0, total0, b0, cap, faults)
      modifies this
      ensures turn == GoesOn ==> Reading(Now(), s0, group, all, before + members, seen, total, b, cap, faults)
      ensures turn != GoesOn ==> Stopped(turn, Now(), s0, group, all, before + members, total, b, cap, faults)
    {
      total, b, seen, turn := total0, b0, seen0, GoesOn;
      ghost var streamed := before;
      for i := 0 to |members|
        invariant streamed == before + members[..i]
        invariant Reading(Now(), s0, group, all, streamed, seen, total, b, cap, faults)
      {
        Streamed(before, members, i);
        total, b, seen, turn := Read(group, members[i], streamed, all, seen, total, b, cap, faults, s0);
        streamed := streamed + [members[i]];
        if turn != GoesOn {
          StoppedEarlier(turn, Now(), s0, group, all, streamed, before + members, total, b, cap, faults);
          return;
        }
      }
      turn := GoesOn;
      assert before + members[..|members|] == before + members;
    }

    static lemma {:induction false} Streamed(before: seq<Member>, members: seq<Member>, i: nat)
      requires i < |members|
      ensures before + members[..i] + [members[i]] == before + members[..i + 1]
      ensures before + members[..i + 1] <= before + members
    {
    }

    static lemma {:induction false} StoppedEarlier(turn: Turn, now: Saved, s0: Saved, group: int, all: seq<Member>,
        streamed: seq<Member>,
        longer: seq<Member>, total: nat, b: Batches, cap: int, faults: nat -> Option<Fault>)
      requires streamed <= longer && Stopped(turn, now, s0, group, all, streamed, total, b, cap, faults)
      ensures Stopped(turn, now, s0, group, all, longer, total, b, cap, faults)
    {
      UnseenPrefix(streamed, longer);
    }

    /** One streamed member: yielded if its id is new. */
    method Read(group: int, m: Member, ghost streamed: seq<Member>, ghost all: seq<Member>, seen0: set<int>,
        total0: nat, b0: Batches, cap: int, faults: nat -> Option<Fault>, ghost s0: Saved)
        returns (total: nat, b: Batches, seen: set<int>, turn: Turn)
      requires streamed + [m] <= all && Reading(Now(), s0, group, all, streamed, seen0, total0, b0, cap, faults)
      modifies this
      ensures turn == GoesOn ==> Reading(Now(), s0, group, all, streamed + [m], seen, total, b, cap, faults)
      ensures turn != GoesOn ==> Stopped(turn, Now(), s0, group, all, streamed + [m], total, b, cap, faults)
    {
      total, b, seen, turn := total0, b0, seen0, GoesOn;
      if m.uid.Some? && m.uid.value != 0 && m.uid.value !in seen {
        YieldNext(streamed, m, all, seen);
        seen := seen + {m.uid.value};
        total, b, turn := Offer(group, m, Unseen(all), |Unseen(streamed)|, total, b, cap, faults, s0);
        Yielded(turn, Now(), s0, group, all, streamed, m, total, b, cap, faults);
      } else {
        PassedOver(Now(), s0, group, all, streamed, m, seen, total, b, cap, faults);
      }
    }

    /** A member without an id, or with one seen before, changes nothing. */
    static lemma {:induction false} PassedOver(now: Saved, s0: Saved, group: int, all: seq<Member>,
        streamed: seq<Member>, m: Member, seen: set<int>, total: nat, b: Batches, cap: int,
        faults: nat -> Option<Fault>)
      requires Reading(now, s0, group, all, streamed, seen, total, b, cap, faults) && streamed + [m] <= all
      requires !Known(m) || Id(m) in seen
      ensures Reading(now, s0, group, all, streamed + [m], seen, total, b, cap, faults)
    {
      UnseenSnoc(streamed, m);
    }

    static lemma {:induction false} YieldNext(streamed: seq<Member>, m: Member, all: seq<Member>, seen: set<int>)
      requires streamed + [m] <= all && seen == Ids(Unseen(streamed)) && Known(m) && Id(m) !in seen
      ensures Unseen(streamed + [m]) == Unseen(streamed) + [m] && Ids(Unseen(streamed + [m])) == seen + {Id(m)}
      ensures |Unseen(streamed)| < |Unseen(all)| && Unseen(all)[|Unseen(streamed)|] == m
    {
      UnseenSnoc(streamed, m);
      NextYielded(streamed, m, all);
    }

    static lemma {:induction false} Yielded(turn: Turn, now: Saved, s0: Saved, group: int, all: seq<Member>,
        streamed: seq<Member>, m: Member, total: nat, b: Batches, cap: int, faults: nat -> Option<Fault>)
      requires streamed + [m] <= all && Unseen(streamed + [m]) == Unseen(streamed) + [m]
      requires TurnEnds(turn, now, s0, group, Unseen(all), |Unseen(streamed)| + 1, total, b, cap, faults)
      requires total <= |Unseen(streamed)| + 1
      ensures turn == GoesOn ==>
                Reading(now, s0, group, all, streamed + [m], Ids(Unseen(streamed + [m])), total, b, cap, faults)
      ensures turn != GoesOn ==> Stopped(turn, now, s0, group, all, streamed + [m], total, b, cap, faults)
    {
    }

    static lemma {:induction false} NextYielded(streamed: seq<Member>, m: Member, all: seq<Member>)
      requires streamed + [m] <= all && Unseen(streamed + [m]) == Unseen(streamed) + [m]
      ensures var n := |Unseen(streamed)|;
              n < |Unseen(all)| && Unseen(all)[n] == m
    {
      UnseenPrefix(streamed + [m], all);
      assert Unseen(streamed + [m])[|Unseen(streamed)|] == m;
    }

    static lemma {:induction false} Start(s0: Saved, group: int, yielded: seq<Member>, cap: int,
        faults: nat -> Option<Fault>)
      ensures Collecting(s0, s0, group, yielded, 0, 0, Batches([], []), cap, faults)
    {
    }

    static lemma {:induction false} Finish(now: Saved, s0: Saved, group: int, yielded: seq<Member>, total: nat,
        b: Batches, cap: int,
        faults: nat -> Option<Fault>)
      requires Collecting(now, s0, group, yielded, |yielded|, total, b, cap, faults)
      ensures Collected(now, s0, group, KnownOnly(yielded), total, b, cap, faults)
    {
    }

    /** Member i has been put on the lists, as the total-th, and has not been tested yet. */
    static ghost predicate Appended(now: Saved, s0: Saved, group: int, yielded: seq<Member>, i: nat, total: nat,
                                    b: Batches, cap: int, faults: nat -> Option<Fault>)
    {
      var offered := KnownOnly(yielded);
      && i < |yielded| && 0 < total <= |offered| && total - 1 < Max(cap, 1)
      && KnownUpTo(yielded, i + 1) == offered[..total]
      && b == BatchesOf(group, offered[Whole(total - 1, BATCH)..total])
      && FirstFault(faults, total - 1, BATCH).None?
      && now == After(s0, group, offered, total - 1)
    }

    static lemma {:induction false} Append(now: Saved, s0: Saved, group: int, yielded: seq<Member>, i: nat,
        total: nat, b: Batches,
        cap: int, faults: nat -> Option<Fault>, longer: Batches)
      requires i < |yielded| && Known(yielded[i])
      requires Collecting(now, s0, group, yielded, i, total, b, cap, faults)
      requires var m := yielded[i];
               longer == Batches(b.users + [(Id(m), User(m.name, m.isBot))],
                                 b.memberships + [((group, Id(m)), RoleOf(m))])
      ensures Appended(now, s0, group, yielded, i, total + 1, longer, cap, faults)
    {
      OfferedNext(yielded, i, total, Whole(total, BATCH));
      BatchesSnoc(group, KnownOnly(yielded)[Whole(total, BATCH)..total], yielded[i]);
    }

    static lemma {:induction false} Skip(now: Saved, s0: Saved, group: int, yielded: seq<Member>, i: nat, total: nat,
        b: Batches, cap: int,
        faults: nat -> Option<Fault>)
      requires i < |yielded| && !Known(yielded[i]) && Collecting(now, s0, group, yielded, i, total, b, cap, faults)
      ensures Collecting(now, s0, group, yielded, i + 1, total, b, cap, faults)
    {
      OfferedNext(yielded, i, total, Whole(total, BATCH));
    }

    static lemma {:induction false} AtCap(now: Saved, s0: Saved, group: int, yielded: seq<Member>, i: nat, total: nat,
        b: Batches,
        cap: int, faults: nat -> Option<Fault>)
      requires Appended(now, s0, group, yielded, i, total, b, cap, faults) && total >= cap
      ensures Collected(now, s0, group, KnownOnly(yielded), total, b, cap, faults) && total == Max(cap, 1)
    {
    }

    /** The full-batch test, below the cap. */
    method TestFull(group: int, ghost yielded: seq<Member>, ghost i: nat, ghost total: nat, b0: Batches, ghost cap: int,
        ghost faults: nat -> Option<Fault>, fault: Option<Fault>, ghost s0: Saved) returns (b: Batches, raised: bool)
      requires Appended(Now(), s0, group, yielded, i, total, b0, cap, faults) && total < cap && fault == faults(total)
      modifies this
      ensures !raised ==> Collecting(Now(), s0, group, yielded, i + 1, total, b, cap, faults)
      ensures raised ==> Raised(Now(), s0, group, KnownOnly(yielded), cap, faults)
    {
      b, raised := FlushFull(b0, group, s0, KnownOnly(yielded), total - 1, fault);
      if raised {
        FirstFaultStays(faults, total, Tested(|KnownOnly(yielded)|, cap), BATCH);
      }
    }

    /** One turn of the loop. */
    method Offer(group: int, m: Member, ghost yielded: seq<Member>, ghost i: nat, total0: nat, b0: Batches, cap: int,
        faults: nat -> Option<Fault>, ghost s0: Saved) returns (total: nat, b: Batches, turn: Turn)
      requires i < |yielded| && yielded[i] == m
      requires Collecting(Now(), s0, group, yielded, i, total0, b0, cap, faults)
      modifies this
      ensures TurnEnds(turn, Now(), s0, group, yielded, i + 1, total, b, cap, faults)
      ensures total <= total0 + 1
    {
      total, b, turn := total0, b0, GoesOn;
      if m.uid.Some? && m.uid.value != 0 {
        b := Batches(b.users + [(m.uid.value, User(m.name, m.isBot))],
                     b.memberships + [((group, m.uid.value), RoleOf(m))]);
        Append(Now(), s0, group, yielded, i, total, b0, cap, faults, b);
        total := total + 1;
        if total >= cap {
          AtCap(Now(), s0, group, yielded, i, total, b, cap, faults);
          turn := ReachesCap;
        } else {
          var raised;
          b, raised := TestFull(group, yielded, i, total, b, cap, faults, faults(total), s0);
          turn := if raised then Raises else GoesOn;
        }
      } else {
        Skip(Now(), s0, group, yielded, i, total, b, cap, faults);
      }
    }

    static lemma {:induction false} OfferedNext(ms: seq<Member>, i: nat, total: nat, done: nat)
      requires i < |ms| && done <= total <= |KnownOnly(ms)| && KnownUpTo(ms, i) == KnownOnly(ms)[..total]
      ensures !Known(ms[i]) ==> KnownUpTo(ms, i + 1) == KnownOnly(ms)[..total]
      ensures Known(ms[i]) ==>
                total < |KnownOnly(ms)| && KnownUpTo(ms, i + 1) == KnownOnly(ms)[..total + 1]
                && KnownOnly(ms)[done..total] + [ms[i]] == KnownOnly(ms)[done..total + 1]
    {
      KnownPrefix(ms, i + 1, |ms|);
    }

    static lemma {:induction false} KnownPrefix(ms: seq<Member>, i: nat, j: nat)
      requires i <= j <= |ms|
      ensures KnownUpTo(ms, i) <= KnownUpTo(ms, j)
    {
      if i < j {
        KnownPrefix(ms, i, j - 1);
      }
    }

    /** After the loop: what the lists still hold, if anything, and the group count. */
    method Wrap(b: Batches, ghost group: int, ghost batch: seq<Member>, endFault: Option<Fault>) returns (raised: bool)
      requires b == BatchesOf(group, batch)
      modifies this
      ensures raised <==> batch != [] && endFault.Some?
      ensures Now() ==
              if raised then FlushedUpTo(old(Now()), group, batch, endFault) else Wrapped(old(Now()), group, batch)
    {
      if b.users != [] {
        raised := Flush(b, group, batch, endFault);
        if raised {
          return;
        }
      }
      rt := rt.(groupsToday := rt.groupsToday + 1, groupsHour := rt.groupsHour + 1);
      raised := false;
    }

    /** parse_members after the chat lookup; `faults` and `endFault` say which write raises if it is made. */
    method ParseMembers(group: int, c: Client, threshold: int, cap: int, faults: nat -> Option<Fault>,
        endFault: Option<Fault>) returns (r: Result<nat, ScanError>)
      modifies this
      ensures var offered := Offered(c, threshold);
              var end := EndOf(|offered|, Yield(c, threshold).1, cap, faults, endFault);
              && Now() == Left(old(Now()), group, offered, cap, end, faults)
              && r == match end
                      case StreamBreaks => Err(StreamBroke)
                      case Complete => Ok(Handled(|offered|, cap))
                      case _ => Err(CallFailed)
      ensures r.Ok? ==>
                var offered := Offered(c, threshold);
                && users == InsertAbsent(old(users), UserRows(offered[..r.value]))
                && memberships == InsertAbsent(old(memberships), MembershipRows(group, offered[..r.value]))
                && rt == Bumped(Bumped(old(rt), MembersToday, r.value), GroupsToday, 1)
      ensures largest <= Max(old(largest), 100)
    {
      ghost var s0, offered := Now(), Offered(c, threshold);
      var total, b, raised;
      var fails := false;
      if c.membersCount != 0 && c.membersCount < threshold {
        total, b, raised := Consume(group, c.recent.members, cap, faults);
        fails := c.recent.fails;
      } else {
        var asked;
        total, b, asked, raised := ConsumeAlphabet(group, c.alphabet, cap, faults);
      }
      LargestBatch(s0, group, offered, cap, EndOf(|offered|, fails, cap, faults, endFault), faults);
      if raised {
        return Err(CallFailed);
      }
      if fails && total < Max(cap, 1) {
        return Err(StreamBroke);
      }
      ghost var tested := Tested(|offered|, cap);
      WrappedIsUnion(s0, group, offered, tested, total);
      var lost := Wrap(b, group, offered[Whole(tested, BATCH)..total], endFault);
      r := if lost then Err(CallFailed) else Ok(total);
    }

    static lemma {:induction false} LargestBatch(s: Saved, group: int, ms: seq<Member>, cap: int, end: End,
        faults: nat -> Option<Fault>)
      requires end.CutAt? ==> 0 < end.n <= |ms| && faults(end.n).Some?
      ensures Left(s, group, ms, cap, end, faults).largest <= Max(s.largest, BATCH)
    {
    }
  }

  // ---------------- the alphabet path, end to end ----------------

  lemma {:induction false} FlatIds(qs: seq<Query>, n: nat)
    requires n <= |qs|
    ensures forall id :: id in Ids(FlatUpTo(qs, n)) <==> exists q :: 0 <= q < n && id in Ids(qs[q].members)
  {
    if n > 0 {
      FlatIds(qs, n - 1);
      IdsConcat(FlatUpTo(qs, n - 1), qs[n - 1].members);
    }
  }

  lemma {:induction false} IdsConcat(a: seq<Member>, b: seq<Member>)
    ensures Ids(a + b) == Ids(a) + Ids(b)
    decreases |b|
  {
    if b == [] {
      assert a + b == a;
    } else {
      var n := |b| - 1;
      IdsConcat(a, b[..n]);
      assert a + b == (a + b[..n]) + [b[n]] && b == b[..n] + [b[n]];
      IdsSnoc(a + b[..n], b[n]);
      IdsSnoc(b[..n], b[n]);
    }
  }

  function MemberKeys(group: int, ms: seq<Member>): set<(int, int)> {
    set i | 0 <= i < |ms| :: (group, Id(ms[i]))
  }

  /** On the alphabet path the members offered are one per distinct id over all queries, each
      query contributing what it streamed before failing; so min(max(cap, 1), distinct ids) members are
      handled, and the memberships become the old ones and one per handled id. */
  lemma {:induction false} AlphabetScan(c: Client, threshold: int, cap: int, group: int, stored: map<(int, int), Role>)
    requires c.membersCount == 0 || c.membersCount >= threshold
    ensures var offered := Offered(c, threshold);
            var n := Handled(|offered|, cap);
            && DistinctIds(offered)
            && (forall id :: id in Ids(offered) <==>
                  exists q :: 0 <= q < |c.alphabet| && id in Ids(c.alphabet[q].members))
            && n == Min(|Ids(Flat(c.alphabet))|, Max(cap, 1))
            && InsertAbsent(stored, MembershipRows(group, offered[..n])).Keys ==
               stored.Keys + MemberKeys(group, offered[..n])
            && (forall k :: k in stored ==> InsertAbsent(stored, MembershipRows(group, offered[..n]))[k] == stored[k])
  {
    UnseenOnce(Flat(c.alphabet));
    KnownOnlyIsAll(Unseen(Flat(c.alphabet)));
    FlatIds(c.alphabet, |c.alphabet|);
    var offered := Offered(c, threshold);
    MembershipKeys(group, offered[..Handled(|offered|, cap)]);
    InsertIsUnion(stored, MembershipRows(group, offered[..Handled(|offered|, cap)]));
  }

  lemma {:induction false} MembershipKeys(group: int, ms: seq<Member>)
    ensures RowKeys(MembershipRows(group, ms)) == MemberKeys(group, ms)
  {
    var rows := MembershipRows(group, ms);
    var keys := MemberKeys(group, ms);
    forall k | k in keys
      ensures k in RowKeys(rows)
    {
      var i :| 0 <= i < |ms| && (group, Id(ms[i])) == k;
      assert rows[i].0 == k;
    }
    forall k | k in RowKeys(rows)
      ensures k in keys
    {
      var i :| 0 <= i < |rows| && rows[i].0 == k;
      assert (group, Id(ms[i])) == k;
    }
  }

  // ---------------- who is offered, and what is stored of them ----------------

  /** A member has an id if its user is there and the id is not zero. */
  lemma {:induction false} KnownMeans(m: Member)
    ensures Known(m) <==> m.uid.Some? && m.uid != Some(0)
    ensures Known(m) ==> m.uid == Some(Id(m))
  {
  }

  /** Members without an id are passed over; the others are offered in order, each as often as listed. */
  lemma {:induction false} KnownOnlyIs(ms: seq<Member>, i: nat, m: Member)
    requires i <= |ms|
    ensures multiset(KnownUpTo(ms, i))[m] == if Known(m) then multiset(ms[..i])[m] else 0
  {
    if i > 0 {
      KnownOnlyIs(ms, i - 1, m);
      assert ms[..i] == ms[..i - 1] + [ms[i - 1]];
    }
  }

  /** A group that says it has members, but fewer than the threshold, is listed once and as it is: its listing
      is offered but for members without an id, and its failure ends the scan. */
  lemma {:induction false} SmallGroupScan(c: Client, threshold: int)
    requires c.membersCount != 0 && c.membersCount < threshold
    ensures Yield(c, threshold) == (c.recent.members, c.recent.fails)
    ensures forall m :: multiset(Offered(c, threshold))[m] == if Known(m) then multiset(c.recent.members)[m] else 0
    ensures (forall m :: m in c.recent.members ==> Known(m)) ==> Offered(c, threshold) == c.recent.members
  {
    var ms := c.recent.members;
    assert ms[..|ms|] == ms;
    forall m
      ensures multiset(KnownOnly(ms))[m] == if Known(m) then multiset(ms)[m] else 0
    {
      KnownOnlyIs(ms, |ms|, m);
    }
    if forall m :: m in ms ==> Known(m) {
      KnownOnlyIsAll(ms);
    }
  }

  /** On the alphabet path no query's failure ends the scan. */
  lemma {:induction false} AlphabetNeverFails(c: Client, threshold: int)
    requires c.membersCount == 0 || c.membersCount >= threshold
    ensures !Yield(c, threshold).1
  {
  }

  /** A new membership has the role of the first handled member with its id: creator for the owner, admin for
      an administrator, member for anyone else; a new user has that member's name and bot flag. */
  lemma {:induction false} FirstIsStored(s: Saved, group: int, ms: seq<Member>, i: nat)
    requires i < |ms| && forall j :: 0 <= j < i ==> Id(ms[j]) != Id(ms[i])
    ensures var users := InsertAbsent(s.users, UserRows(ms));
            var memberships := InsertAbsent(s.memberships, MembershipRows(group, ms));
            var id, key := Id(ms[i]), (group, Id(ms[i]));
            && id in users && key in memberships
            && (id !in s.users ==> users[id].name == ms[i].name && users[id].isBot == ms[i].isBot)
            && (key !in s.memberships ==>
                  && (memberships[key].Creator? <==> ms[i].status == Some(Owner))
                  && (memberships[key].Admin? <==> ms[i].status == Some(Administrator)))
  {
    var us, gs := UserRows(ms), MembershipRows(group, ms);
    InsertAt(s.users, us, Id(ms[i]));
    InsertAt(s.memberships, gs, (group, Id(ms[i])));
    FirstAt(us, i);
    FirstAt(gs, i);
  }

  /** How the scan ends: the first flush that raises below the cap decides, then the listing, then the last
      write, and otherwise it is complete. */
  lemma {:induction false} EndIs(offered: nat, fails: bool, cap: int, faults: nat -> Option<Fault>,
      endFault: Option<Fault>)
    ensures var end := EndOf(offered, fails, cap, faults, endFault);
            var most := if cap < 1 then 1 else cap;
            var flushRaises := exists k: nat :: 0 < k <= offered && k < most && Whole(k, 100) == k && faults(k).Some?;
            && (end.CutAt? <==> flushRaises)
            && (end.CutAt? ==> 0 < end.n <= offered && end.n < most && Whole(end.n, 100) == end.n && faults(end.n).Some?
                               && forall k: nat :: 0 < k < end.n && Whole(k, 100) == k ==> faults(k).None?)
            && (end.StreamBreaks? <==> !flushRaises && fails && offered < most)
            && (end.LastBatchLost? ==> endFault == Some(end.fault))
            && (end.Complete? && endFault.Some? ==>
                  if offered < most then Whole(offered, 100) == offered else false)
  {
    var tested := Tested(offered, cap);
    var end := EndOf(offered, fails, cap, faults, endFault);
    FirstFaultIs(faults, tested, BATCH, if end.CutAt? then end.n else 0);
  }
}
