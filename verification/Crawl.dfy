/** The crawl: groups yield links, links yield groups. Scans and chain walks run interleaved over
    the target_groups and discovered_links tables. */
module Crawl {
  import opened Base

  datatype Group = Group(tgId: Option<int>, username: string, depth: int)

  /** `source` is the target_groups row whose scan found the link. */
  datatype Link = Link(id: nat, source: nat, depth: int, resolved: bool)

  /** A link row held by a chain walk. */
  datatype Claim = Claim(username: string, source: nat, depth: int)

  /** A group row held by a history scan, as read when the scan started. */
  datatype Scan = Scan(row: nat, depth: int)

  datatype State = State(
    groups: map<nat, Group>,
    owner: map<int, nat>,          // the unique index on tg_id
    nextRow: nat,
    links: map<string, Link>,      // unique on target_username
    nextLink: nat,
    scans: map<nat, Scan>,
    walks: map<nat, seq<Claim>>,
    nextWalk: nat,
    seeds: set<nat>,               // history: rows written at depth 0
    hops: set<(nat, nat)>,         // history: row scanned, row resolved from one of its links
    claimedBy: map<string, nat>,   // history: the walk that claimed each link
    attempts: seq<string>)         // history: usernames chain walks tried to resolve

  datatype Step =
    | Seed(tgId: Option<int>, username: string)
    | StartScan(k: nat, row: nat)
    | Retarget(k: nat, chatId: int, username: string)  // the chat's id differs from the row's
    | FinishScan(k: nat, found: seq<string>)
    | DropScan(k: nat)
    | StartWalk(limit: nat, locked: set<string>, names: seq<string>)
    | Skip(k: nat)                             // the link is already at the maximum depth
    | Resolve(k: nat, answer: Option<(int, string)>)
    | AbandonWalk(k: nat)                      // no account, an exception or a crash

  // ---------------- the tables' writes ----------------

  /** upsert_target_group: a known tg_id overwrites the row, depth included; anything else inserts. */
  function Upsert(s: State, tgId: Option<int>, username: string, depth: int): (State, nat) {
    if tgId.Some? && tgId.value in s.owner then
      var row := s.owner[tgId.value];
      (s.(groups := s.groups[row := Group(tgId, username, depth)]), row)
    else
      (s.(groups := s.groups[s.nextRow := Group(tgId, username, depth)],
          owner := if tgId.Some? then s.owner[tgId.value := s.nextRow] else s.owner,
          nextRow := s.nextRow + 1), s.nextRow)
  }

  function InsertLink(s: State, username: string, source: nat, depth: int): State {
    if username in s.links then s
    else s.(links := s.links[username := Link(s.nextLink, source, depth, false)], nextLink := s.nextLink + 1)
  }

  /** bulk_insert_links: ON CONFLICT DO NOTHING, row by row. */
  function InsertLinks(s: State, found: seq<string>, source: nat, depth: int): State
    decreases |found|
  {
    if found == [] then s
    else InsertLink(InsertLinks(s, found[..|found| - 1], source, depth), found[|found| - 1], source, depth)
  }

  predicate EarlierLink(a: Link, b: Link) {
    a.depth < b.depth || (a.depth == b.depth && a.id <= b.id)
  }

  /** SELECT unresolved ... ORDER BY depth, id LIMIT ... FOR UPDATE SKIP LOCKED */
  predicate IsSelection(links: map<string, Link>, locked: set<string>, limit: nat, names: seq<string>) {
    && |names| <= limit
    && (forall i :: 0 <= i < |names| ==> names[i] in links && !links[names[i]].resolved && names[i] !in locked)
    && (forall i, j :: 0 <= i < j < |names| ==> names[i] != names[j] && EarlierLink(links[names[i]], links[names[j]]))
    && (forall u :: u in links && !links[u].resolved && u !in locked && u !in names ==>
          |names| == limit && forall i :: 0 <= i < |names| ==> EarlierLink(links[names[i]], links[u]))
  }

  function MarkResolved(links: map<string, Link>, names: seq<string>): map<string, Link> {
    map u | u in links :: if u in names then links[u].(resolved := true) else links[u]
  }

  function Claims(links: map<string, Link>, names: seq<string>): seq<Claim>
    requires forall u :: u in names ==> u in links
  {
    seq(|names|, i requires 0 <= i < |names| => Claim(names[i], links[names[i]].source, links[names[i]].depth))
  }

  // ---------------- transitions ----------------

  predicate Enabled(maxDepth: int, s: State, step: Step) {
    match step
    case Seed(_, _) => true
    case StartScan(k, row) => k !in s.scans && row in s.groups
    case Retarget(k, _, _) => k in s.scans
    case FinishScan(k, _) => k in s.scans
    case DropScan(k) => k in s.scans
    case StartWalk(limit, locked, names) => IsSelection(s.links, locked, limit, names)
    case Skip(k) => k in s.walks && s.walks[k] != [] && s.walks[k][0].depth >= maxDepth
    case Resolve(k, _) => k in s.walks && s.walks[k] != [] && s.walks[k][0].depth < maxDepth
    case AbandonWalk(k) => k in s.walks
  }

  function Pop(s: State, k: nat): State
    requires k in s.walks && s.walks[k] != []
  {
    s.(walks := s.walks[k := s.walks[k][1..]])
  }

  /** parse_history meets a chat id the row does not carry: the row takes it, unless another row owns
      it; then the scan goes on under that row. */
  function Retargeted(s: State, k: nat, tgId: int, username: string): State
    requires k in s.scans
  {
    var row := s.scans[k].row;
    if tgId in s.owner then
      if s.owner[tgId] == row || s.owner[tgId] !in s.groups then s
      else s.(scans := s.scans[k := Scan(s.owner[tgId], s.groups[s.owner[tgId]].depth)])
    else if row !in s.groups then s
    else
      var was := s.groups[row].tgId;
      s.(groups := s.groups[row := s.groups[row].(tgId := Some(tgId), username := username)],
         owner := (if was.Some? then s.owner - {was.value} else s.owner)[tgId := row])
  }

  function Apply(maxDepth: int, s: State, step: Step): State
    requires Enabled(maxDepth, s, step)
  {
    match step
    case Seed(tgId, username) =>
      var (s', row) := Upsert(s, tgId, username, 0);
      s'.(seeds := s.seeds + {row})
    case StartScan(k, row) => s.(scans := s.scans[k := Scan(row, s.groups[row].depth)])
    case Retarget(k, tgId, username) => Retargeted(s, k, tgId, username)
    case FinishScan(k, found) =>
      var scan := s.scans[k];
      InsertLinks(s.(scans := s.scans - {k}), found, scan.row, scan.depth + 1)
    case DropScan(k) => s.(scans := s.scans - {k})
    case StartWalk(limit, locked, names) =>
      s.(links := MarkResolved(s.links, names),
         walks := s.walks[s.nextWalk := Claims(s.links, names)],
         nextWalk := s.nextWalk + 1,
         claimedBy := s.claimedBy + map u | u in names :: s.nextWalk)
    case Skip(k) => Pop(s, k)
    case Resolve(k, answer) =>
      var c := s.walks[k][0];
      var s1 := Pop(s, k).(attempts := s.attempts + [c.username]);
      if answer.None? then s1
      else
        var (s2, row) := Upsert(s1, Some(answer.value.0), answer.value.1, c.depth + 1);
        s2.(hops := s.hops + {(c.source, row)})
    case AbandonWalk(k) => s.(walks := s.walks - {k})
  }

  predicate EnabledAll(maxDepth: int, s: State, steps: seq<Step>)
    decreases |steps|
  {
    steps == [] || (Enabled(maxDepth, s, steps[0]) && EnabledAll(maxDepth, Apply(maxDepth, s, steps[0]), steps[1..]))
  }

  function Exec(maxDepth: int, s: State, steps: seq<Step>): State
    requires EnabledAll(maxDepth, s, steps)
    decreases |steps|
  {
    if steps == [] then s else Exec(maxDepth, Apply(maxDepth, s, steps[0]), steps[1..])
  }

  const EMPTY: State := State(map[], map[], 0, map[], 0, map[], map[], 0, {}, {}, map[], [])

  /** s' is s with links added from this source at this depth, and nothing else changed. */
  ghost predicate LinksAdded(s: State, s': State, source: nat, depth: int) {
    && s' == s.(links := s'.links, nextLink := s'.nextLink)
    && (forall u :: u in s.links ==> u in s'.links && s'.links[u] == s.links[u])
    && (forall u :: u in s'.links && u !in s.links ==>
          s'.links[u].source == source && s'.links[u].depth == depth && !s'.links[u].resolved)
  }

  lemma {:induction false} InsertLinkAdds(s: State, s': State, username: string, source: nat, depth: int)
    requires LinksAdded(s, s', source, depth)
    ensures LinksAdded(s, InsertLink(s', username, source, depth), source, depth)
    ensures InsertLink(s', username, source, depth).links.Keys == s'.links.Keys + {username}
  {
  }

  /** Inserting links keeps the old ones, adds exactly the new names, and touches nothing else. */
  lemma {:induction false} InsertLinksFrame(s: State, found: seq<string>, source: nat, depth: int)
    ensures var s' := InsertLinks(s, found, source, depth);
            LinksAdded(s, s', source, depth) && forall u :: u in s'.links <==> u in s.links || u in found
    decreases |found|
  {
    if found != [] {
      var init, last := found[..|found| - 1], found[|found| - 1];
      InsertLinksFrame(s, init, source, depth);
      InsertLinkAdds(s, InsertLinks(s, init, source, depth), last, source, depth);
      assert found == init + [last];
    }
  }

  /** An upsert writes one row, and touches no link, scan or walk. */
  lemma {:induction false} UpsertFrame(s: State, tgId: Option<int>, username: string, depth: int)
    ensures var (s', row) := Upsert(s, tgId, username, depth);
            && s' == s.(groups := s'.groups, owner := s'.owner, nextRow := s'.nextRow)
            && s'.groups == s.groups[row := Group(tgId, username, depth)]
  {
  }

  /** What trying the head of a walk changes besides the groups. */
  lemma {:induction false} ResolveFrame(maxDepth: int, s: State, step: Step)
    requires Enabled(maxDepth, s, step) && step.Resolve?
    ensures var s' := Apply(maxDepth, s, step);
            && s' == s.(groups := s'.groups, owner := s'.owner, nextRow := s'.nextRow, hops := s'.hops,
                        walks := s.walks[step.k := s.walks[step.k][1..]],
                        attempts := s.attempts + [s.walks[step.k][0].username])
            && if step.answer.None? then s'.groups == s.groups && s'.hops == s.hops
               else exists row :: s'.groups == s.groups[row := Group(Some(step.answer.value.0), step.answer.value.1,
                                                                     s.walks[step.k][0].depth + 1)]
                                  && s'.hops == s.hops + {(s.walks[step.k][0].source, row)}
  {
    if step.answer.Some? {
      var c := s.walks[step.k][0];
      var s1 := Pop(s, step.k).(attempts := s.attempts + [c.username]);
      UpsertFrame(s1, Some(step.answer.value.0), step.answer.value.1, c.depth + 1);
      var row := Upsert(s1, Some(step.answer.value.0), step.answer.value.1, c.depth + 1).1;
      assert Apply(maxDepth, s, step).hops == s.hops + {(c.source, row)};
    }
  }

  // ---------------- depth and hops ----------------

  /** Row r is exactly n chain hops away from a seed, along recorded hops. */
  ghost predicate HopsFromSeed(s: State, r: nat, n: nat)
    decreases n
  {
    if n == 0 then r in s.seeds
    else exists q :: (q, r) in s.hops && HopsFromSeed(s, q, n - 1)
  }

  lemma {:induction false} HopsPersist(s: State, s': State, r: nat, n: nat)
    requires s.seeds <= s'.seeds && s.hops <= s'.hops && HopsFromSeed(s, r, n)
    ensures HopsFromSeed(s', r, n)
    decreases n
  {
    if n > 0 {
      var q :| (q, r) in s.hops && HopsFromSeed(s, q, n - 1);
      HopsPersist(s, s', q, n - 1);
    }
  }

  /** An even depth within the limit, backed by a path of half as many hops. */
  ghost predicate GroupDepth(maxDepth: int, s: State, row: nat, depth: int) {
    depth % 2 == 0 && 0 <= depth <= maxDepth && HopsFromSeed(s, row, depth / 2)
  }

  ghost predicate LinkDepth(maxDepth: int, s: State, source: nat, depth: int) {
    depth % 2 == 1 && 1 <= depth <= maxDepth + 1 && HopsFromSeed(s, source, (depth - 1) / 2)
  }

  ghost predicate DepthInv(maxDepth: int, s: State) {
    && (forall r :: r in s.groups ==> GroupDepth(maxDepth, s, r, s.groups[r].depth))
    && (forall k :: k in s.scans ==> GroupDepth(maxDepth, s, s.scans[k].row, s.scans[k].depth))
    && (forall u :: u in s.links ==> LinkDepth(maxDepth, s, s.links[u].source, s.links[u].depth))
    && (forall k, i :: k in s.walks && 0 <= i < |s.walks[k]| ==>
          LinkDepth(maxDepth, s, s.walks[k][i].source, s.walks[k][i].depth))
  }

  /** The invariant survives anything that only adds history and rows of sound depth. */
  lemma {:induction false} DepthFrame(maxDepth: int, s: State, s': State)
    requires DepthInv(maxDepth, s) && s.seeds <= s'.seeds && s.hops <= s'.hops
    requires forall r :: r in s'.groups ==>
               GroupDepth(maxDepth, s', r, s'.groups[r].depth)
               || (r in s.groups && s'.groups[r].depth == s.groups[r].depth)
    requires forall k :: k in s'.scans ==>
               (k in s.scans && s'.scans[k] == s.scans[k])
               || (s'.scans[k].row in s.groups && s'.scans[k].depth == s.groups[s'.scans[k].row].depth)
    requires forall u :: u in s'.links ==>
               (u in s.links && s'.links[u].source == s.links[u].source && s'.links[u].depth == s.links[u].depth)
               || LinkDepth(maxDepth, s', s'.links[u].source, s'.links[u].depth)
    requires forall k, i :: k in s'.walks && 0 <= i < |s'.walks[k]| ==>
               LinkDepth(maxDepth, s, s'.walks[k][i].source, s'.walks[k][i].depth)
    ensures DepthInv(maxDepth, s')
  {
    forall row: nat, depth: int | GroupDepth(maxDepth, s, row, depth)
      ensures GroupDepth(maxDepth, s', row, depth)
    {
      HopsPersist(s, s', row, depth / 2);
    }
    forall row: nat, depth: int | LinkDepth(maxDepth, s, row, depth)
      ensures LinkDepth(maxDepth, s', row, depth)
    {
      HopsPersist(s, s', row, (depth - 1) / 2);
    }
  }

  lemma {:induction false} SeedKeepsDepth(maxDepth: int, s: State, step: Step)
    requires maxDepth >= 0 && DepthInv(maxDepth, s) && step.Seed?
    ensures DepthInv(maxDepth, Apply(maxDepth, s, step))
  {
    var s' := Apply(maxDepth, s, step);
    var row := Upsert(s, step.tgId, step.username, 0).1;
    assert HopsFromSeed(s', row, 0);
    assert GroupDepth(maxDepth, s', row, 0);
    DepthFrame(maxDepth, s, s');
  }

  lemma {:induction false} ScanKeepsDepth(maxDepth: int, s: State, step: Step)
    requires DepthInv(maxDepth, s) && Enabled(maxDepth, s, step)
    requires step.StartScan? || step.Retarget? || step.DropScan?
    ensures DepthInv(maxDepth, Apply(maxDepth, s, step))
  {
    DepthFrame(maxDepth, s, Apply(maxDepth, s, step));
  }

  lemma {:induction false} FinishScanKeepsDepth(maxDepth: int, s: State, step: Step)
    requires DepthInv(maxDepth, s) && Enabled(maxDepth, s, step) && step.FinishScan?
    ensures DepthInv(maxDepth, Apply(maxDepth, s, step))
  {
    var scan := s.scans[step.k];
    var s0 := s.(scans := s.scans - {step.k});
    var s' := Apply(maxDepth, s, step);
    InsertLinksFrame(s0, step.found, scan.row, scan.depth + 1);
    HopsPersist(s, s', scan.row, scan.depth / 2);
    assert LinkDepth(maxDepth, s', scan.row, scan.depth + 1);
    DepthFrame(maxDepth, s, s');
  }

  lemma {:induction false} WalkKeepsDepth(maxDepth: int, s: State, step: Step)
    requires DepthInv(maxDepth, s) && Enabled(maxDepth, s, step)
    requires step.StartWalk? || step.Skip? || step.AbandonWalk?
    ensures DepthInv(maxDepth, Apply(maxDepth, s, step))
  {
    DepthFrame(maxDepth, s, Apply(maxDepth, s, step));
  }

  lemma {:induction false} ResolveKeepsDepth(maxDepth: int, s: State, step: Step)
    requires DepthInv(maxDepth, s) && Enabled(maxDepth, s, step) && step.Resolve?
    ensures DepthInv(maxDepth, Apply(maxDepth, s, step))
  {
    var s' := Apply(maxDepth, s, step);
    var c := s.walks[step.k][0];
    ResolveFrame(maxDepth, s, step);
    assert LinkDepth(maxDepth, s, c.source, c.depth);
    if step.answer.Some? {
      var row :| s'.groups == s.groups[row := Group(Some(step.answer.value.0), step.answer.value.1, c.depth + 1)]
                 && s'.hops == s.hops + {(c.source, row)};
      HopTo(maxDepth, s, s', c.source, row, c.depth);
    }
    DepthFrame(maxDepth, s, s');
  }

  /** A chain hop turns a link's depth into the depth of the group it leads to. */
  lemma {:induction false} HopTo(maxDepth: int, s: State, s': State, source: nat, row: nat, depth: int)
    requires LinkDepth(maxDepth, s, source, depth) && depth < maxDepth
    requires s.seeds <= s'.seeds && s.hops <= s'.hops && (source, row) in s'.hops
    ensures GroupDepth(maxDepth, s', row, depth + 1)
  {
    HopsPersist(s, s', source, (depth - 1) / 2);
  }

  lemma {:induction false} StepKeepsDepth(maxDepth: int, s: State, step: Step)
    requires maxDepth >= 0 && DepthInv(maxDepth, s) && Enabled(maxDepth, s, step)
    ensures DepthInv(maxDepth, Apply(maxDepth, s, step))
  {
    match step
    case Seed(_, _) => SeedKeepsDepth(maxDepth, s, step);
    case FinishScan(_, _) => FinishScanKeepsDepth(maxDepth, s, step);
    case StartWalk(_, _, _) => WalkKeepsDepth(maxDepth, s, step);
    case Skip(_) => WalkKeepsDepth(maxDepth, s, step);
    case AbandonWalk(_) => WalkKeepsDepth(maxDepth, s, step);
    case Resolve(_, _) => ResolveKeepsDepth(maxDepth, s, step);
    case _ => ScanKeepsDepth(maxDepth, s, step);
  }

  lemma {:induction false} RunKeepsDepth(maxDepth: int, s: State, steps: seq<Step>)
    requires maxDepth >= 0 && DepthInv(maxDepth, s) && EnabledAll(maxDepth, s, steps)
    ensures DepthInv(maxDepth, Exec(maxDepth, s, steps))
    decreases |steps|
  {
    if steps != [] {
      StepKeepsDepth(maxDepth, s, steps[0]);
      RunKeepsDepth(maxDepth, Apply(maxDepth, s, steps[0]), steps[1..]);
    }
  }

  /** In every reachable database a group's depth is even, at most max_depth, and twice the length of
      some chain of hops from a seed; a link's depth is odd and at most max_depth + 1. */
  lemma {:induction false} DepthBounds(maxDepth: int, steps: seq<Step>)
    requires maxDepth >= 0 && EnabledAll(maxDepth, EMPTY, steps)
    ensures var s := Exec(maxDepth, EMPTY, steps);
            && (forall r :: r in s.groups ==>
                  && s.groups[r].depth % 2 == 0 && 0 <= s.groups[r].depth <= maxDepth
                  && HopsFromSeed(s, r, s.groups[r].depth / 2) && s.groups[r].depth / 2 <= maxDepth / 2)
            && (forall u :: u in s.links ==>
                  s.links[u].depth % 2 == 1 && 1 <= s.links[u].depth <= maxDepth + 1)
  {
    RunKeepsDepth(maxDepth, EMPTY, steps);
    var s := Exec(maxDepth, EMPTY, steps);
    forall r | r in s.groups
      ensures GroupDepth(maxDepth, s, r, s.groups[r].depth)
    {
    }
  }

  // ---------------- one chat, one row ----------------

  /** The unique index names exactly the row that carries the chat id; row ids are never reused. */
  ghost predicate OwnerInv(s: State) {
    && (forall t :: t in s.owner ==> s.owner[t] in s.groups && s.groups[s.owner[t]].tgId == Some(t))
    && (forall r :: r in s.groups && s.groups[r].tgId.Some? ==>
          s.groups[r].tgId.value in s.owner && s.owner[s.groups[r].tgId.value] == r)
    && (forall r :: r in s.groups ==> r < s.nextRow)
  }

  lemma {:induction false} UpsertKeepsOwner(s: State, tgId: Option<int>, username: string, depth: int)
    requires OwnerInv(s)
    ensures OwnerInv(Upsert(s, tgId, username, depth).0)
  {
    var (s', row) := Upsert(s, tgId, username, depth);
    if tgId.Some? && tgId.value in s.owner {
      var t := tgId.value;
      assert t in s.owner;
      assert s.groups[s.owner[t]].tgId == Some(t);
      assert s'.owner == s.owner;
    }
  }

  lemma {:induction false} RetargetKeepsOwner(s: State, k: nat, tgId: int, username: string)
    requires OwnerInv(s) && k in s.scans
    ensures OwnerInv(Retargeted(s, k, tgId, username))
  {
  }

  /** Steps that leave the group table alone. */
  lemma {:induction false} SameGroupsKeepOwner(s: State, s': State)
    requires OwnerInv(s) && s'.groups == s.groups && s'.owner == s.owner && s'.nextRow == s.nextRow
    ensures OwnerInv(s')
  {
  }

  lemma {:induction false} StepKeepsOwner(maxDepth: int, s: State, step: Step)
    requires OwnerInv(s) && Enabled(maxDepth, s, step)
    ensures OwnerInv(Apply(maxDepth, s, step))
  {
    match step
    case Seed(tgId, username) =>
      UpsertKeepsOwner(s, tgId, username, 0);
      SameGroupsKeepOwner(Upsert(s, tgId, username, 0).0, Apply(maxDepth, s, step));
    case Retarget(k, tgId, username) => RetargetKeepsOwner(s, k, tgId, username);
    case FinishScan(k, found) =>
      InsertLinksFrame(s.(scans := s.scans - {k}), found, s.scans[k].row, s.scans[k].depth + 1);
      SameGroupsKeepOwner(s, Apply(maxDepth, s, step));
    case Resolve(k, answer) =>
      var c := s.walks[k][0];
      var s1 := Pop(s, k).(attempts := s.attempts + [c.username]);
      SameGroupsKeepOwner(s, s1);
      if answer.Some? {
        UpsertKeepsOwner(s1, Some(answer.value.0), answer.value.1, c.depth + 1);
        SameGroupsKeepOwner(Upsert(s1, Some(answer.value.0), answer.value.1, c.depth + 1).0, Apply(maxDepth, s, step));
      }
    case _ => SameGroupsKeepOwner(s, Apply(maxDepth, s, step));
  }

  lemma {:induction false} RunKeepsOwner(maxDepth: int, s: State, steps: seq<Step>)
    requires OwnerInv(s) && EnabledAll(maxDepth, s, steps)
    ensures OwnerInv(Exec(maxDepth, s, steps))
    decreases |steps|
  {
    if steps != [] {
      StepKeepsOwner(maxDepth, s, steps[0]);
      RunKeepsOwner(maxDepth, Apply(maxDepth, s, steps[0]), steps[1..]);
    }
  }

  /** In every reachable database no two rows carry the same chat id, and the index finds the one that does. */
  lemma {:induction false} OneRowPerChat(maxDepth: int, steps: seq<Step>, t: int)
    requires EnabledAll(maxDepth, EMPTY, steps)
    ensures var s := Exec(maxDepth, EMPTY, steps);
            && (forall q, r :: q in s.groups && r in s.groups && s.groups[q].tgId == s.groups[r].tgId == Some(t) ==>
                  q == r)
            && (forall r :: t in s.owner && s.owner[t] == r <==> r in s.groups && s.groups[r].tgId == Some(t))
  {
    RunKeepsOwner(maxDepth, EMPTY, steps);
  }

  /** Upserting a chat that is stored overwrites its row, name and depth, and adds none; anything else adds
      one row and keeps the rest. */
  lemma {:induction false} UpsertWrites(s: State, tgId: Option<int>, username: string, depth: int)
    requires OwnerInv(s)
    ensures var (s', row) := Upsert(s, tgId, username, depth);
            && row in s'.groups && s'.groups[row] == Group(tgId, username, depth)
            && (forall r :: r in s.groups && r != row ==> r in s'.groups && s'.groups[r] == s.groups[r])
            && ((exists r :: r in s.groups && tgId.Some? && s.groups[r].tgId == tgId) ==>
                  row in s.groups && s.groups[row].tgId == tgId && s'.groups.Keys == s.groups.Keys)
            && ((forall r :: r in s.groups && tgId.Some? ==> s.groups[r].tgId != tgId) ==>
                  row !in s.groups && s'.groups.Keys == s.groups.Keys + {row})
  {
    if tgId.Some? && tgId.value in s.owner {
      var t := tgId.value;
      assert t in s.owner;
      assert s.groups[s.owner[t]].tgId == Some(t);
    }
  }

  /** A scan whose chat turns out to have another row goes on under that row, at that row's depth; otherwise
      its own row takes the chat id and the name. */
  lemma {:induction false} RetargetMoves(s: State, k: nat, tgId: int, username: string)
    requires OwnerInv(s) && k in s.scans && s.scans[k].row in s.groups
    ensures var s' := Retargeted(s, k, tgId, username);
            var row := s.scans[k].row;
            && (forall r :: r in s.groups && s.groups[r].tgId == Some(tgId) ==>
                  s'.groups == s.groups
                  && s'.scans[k] == (if r == row then s.scans[k] else Scan(r, s.groups[r].depth)))
            && ((forall r :: r in s.groups ==> s.groups[r].tgId != Some(tgId)) ==>
                  && s'.scans == s.scans
                  && s'.groups == s.groups[row := Group(Some(tgId), username, s.groups[row].depth)])
  {
  }

  // ---------------- which links come first ----------------

  /** A walk claims shallow links before deep ones, and of one depth the older; what it leaves is deeper or
      younger than all it takes, and it leaves something only when it is full. */
  lemma {:induction false} ShallowFirst(links: map<string, Link>, locked: set<string>, limit: nat, names: seq<string>,
      i: nat)
    requires IsSelection(links, locked, limit, names) && i < |names|
    ensures |names| <= limit && names[i] in links && !links[names[i]].resolved && names[i] !in locked
    ensures forall j :: 0 <= j < |names| && j != i ==> names[j] != names[i]
    ensures forall j :: i < j < |names| ==>
              links[names[i]].depth < links[names[j]].depth
              || (links[names[i]].depth == links[names[j]].depth && links[names[i]].id <= links[names[j]].id)
    ensures forall u :: u in links && !links[u].resolved && u !in locked && u !in names ==>
              && |names| == limit
              && (links[names[i]].depth < links[u].depth
                  || (links[names[i]].depth == links[u].depth && links[names[i]].id <= links[u].id))
  {
  }

  // ---------------- link ids tell the order of discovery ----------------

  ghost predicate LinkIdInv(s: State) {
    && (forall u :: u in s.links ==> s.links[u].id < s.nextLink)
    && (forall u, v :: u in s.links && v in s.links && s.links[u].id == s.links[v].id ==> u == v)
  }

  /** Old links keep their ids, and new ones come after them. */
  ghost predicate LinksAfter(s: State, s': State) {
    && s.nextLink <= s'.nextLink
    && (forall u :: u in s.links ==> u in s'.links && s'.links[u].id == s.links[u].id)
    && (forall u :: u in s'.links && u !in s.links ==> s.nextLink <= s'.links[u].id)
  }

  lemma {:induction false} InsertLinksIds(s: State, found: seq<string>, source: nat, depth: int)
    requires LinkIdInv(s)
    ensures LinkIdInv(InsertLinks(s, found, source, depth)) && LinksAfter(s, InsertLinks(s, found, source, depth))
    decreases |found|
  {
    if found != [] {
      InsertLinksIds(s, found[..|found| - 1], source, depth);
    }
  }

  lemma {:induction false} StepKeepsLinkIds(maxDepth: int, s: State, step: Step)
    requires LinkIdInv(s) && Enabled(maxDepth, s, step)
    ensures LinkIdInv(Apply(maxDepth, s, step)) && LinksAfter(s, Apply(maxDepth, s, step))
  {
    if step.FinishScan? {
      InsertLinksIds(s.(scans := s.scans - {step.k}), step.found, s.scans[step.k].row, s.scans[step.k].depth + 1);
    } else if step.Resolve? {
      ResolveFrame(maxDepth, s, step);
    } else if step.Seed? {
      UpsertFrame(s, step.tgId, step.username, 0);
    }
  }

  lemma {:induction false} RunKeepsLinkIds(maxDepth: int, s: State, steps: seq<Step>)
    requires LinkIdInv(s) && EnabledAll(maxDepth, s, steps)
    ensures LinkIdInv(Exec(maxDepth, s, steps)) && LinksAfter(s, Exec(maxDepth, s, steps))
    decreases |steps|
  {
    if steps != [] {
      StepKeepsLinkIds(maxDepth, s, steps[0]);
      RunKeepsLinkIds(maxDepth, Apply(maxDepth, s, steps[0]), steps[1..]);
    }
  }

  /** In every run a link found earlier has the smaller id, so the walk's order by id is the order of
      discovery. */
  lemma {:induction false} EarlierFoundFirst(maxDepth: int, before: seq<Step>, after: seq<Step>, u: string, v: string)
    requires EnabledAll(maxDepth, EMPTY, before) && EnabledAll(maxDepth, Exec(maxDepth, EMPTY, before), after)
    requires var s := Exec(maxDepth, EMPTY, before);
             u in s.links && v !in s.links && v in Exec(maxDepth, s, after).links
    ensures var last := Exec(maxDepth, Exec(maxDepth, EMPTY, before), after);
            u in last.links && last.links[u].id < last.links[v].id
  {
    RunKeepsLinkIds(maxDepth, EMPTY, before);
    RunKeepsLinkIds(maxDepth, Exec(maxDepth, EMPTY, before), after);
  }
}
