/** The discovery service and the repository functions under it, in place over the two tables.
    Every call is proved to be a run of the crawl's steps. */
module Discovery {
  import opened Base
  import opened Crawl

  const SKIPPED: set<string> := {"joinchat", "addlist", "proxy", "socks", "c", "s", "iv", "share"}

  /** Usernames resolve_username turns down before asking the client. */
  predicate Refused(username: string) {
    |username| < 4 || LowerAll(username) in SKIPPED
  }

  /** u is the name up to case. */
  predicate SameName(u: string, name: string) {
    |u| == |name| && forall i :: 0 <= i < |u| ==> Lower(u[i]) == name[i]
  }

  /** Names of three characters or fewer are turned down, and five longer ones. */
  lemma {:induction false} RefusedIs(u: string)
    ensures Refused(u) <==> (|u| <= 3 || SameName(u, "joinchat") || SameName(u, "addlist") || SameName(u, "proxy")
                             || SameName(u, "socks") || SameName(u, "share"))
  {
    var low := LowerAll(u);
    forall name: string
      ensures low == name <==> SameName(u, name)
    {
      if SameName(u, name) {
        assert forall i :: 0 <= i < |low| ==> low[i] == name[i];
      }
    }
    assert SKIPPED == {"joinchat", "addlist", "proxy", "socks", "c", "s", "iv", "share"};
  }

  /** What the loop over the claimed links does: links at the limit are passed over, the first one
      without an account ends the walk, every other one is tried. */
  function WalkPlan(maxDepth: int, k: nat, links: seq<Claim>, accounts: seq<bool>,
      answers: seq<Option<(int, string)>>): seq<Step>
    requires |links| <= |accounts| == |answers|
    decreases |links|
  {
    if links == [] then []
    else if links[0].depth >= maxDepth then [Skip(k)] + WalkPlan(maxDepth, k, links[1..], accounts[1..], answers[1..])
    else if !accounts[0] then []
    else
      [Resolve(k, if Refused(links[0].username) then None else answers[0])]
      + WalkPlan(maxDepth, k, links[1..], accounts[1..], answers[1..])
  }

  /** The links a walk may try: those below the maximum depth. */
  function Shallow(maxDepth: int, links: seq<Claim>): seq<string>
    decreases |links|
  {
    if links == [] then []
    else (if links[0].depth < maxDepth then [links[0].username] else []) + Shallow(maxDepth, links[1..])
  }

  function Tries(steps: seq<Step>): nat
    decreases |steps|
  {
    if steps == [] then 0 else (if steps[0].Resolve? then 1 else 0) + Tries(steps[1..])
  }

  lemma {:induction false} FirstStep(maxDepth: int, s: State, step: Step, rest: seq<Step>)
    requires Enabled(maxDepth, s, step)
    ensures EnabledAll(maxDepth, s, [step] + rest) == EnabledAll(maxDepth, Apply(maxDepth, s, step), rest)
    ensures EnabledAll(maxDepth, s, [step] + rest) ==>
              Exec(maxDepth, s, [step] + rest) == Exec(maxDepth, Apply(maxDepth, s, step), rest)
  {
    assert ([step] + rest)[1..] == rest;
  }

  /** What one planned step does to its walk, and how it prefixes a run. */
  lemma {:induction false} HeadStep(maxDepth: int, s: State, k: nat, step: Step, next: seq<Step>) returns (s': State)
    requires Enabled(maxDepth, s, step) && (step.Skip? || step.Resolve?) && step.k == k
    ensures k in s'.walks && s'.walks[k] == s.walks[k][1..]
    ensures s'.attempts == s.attempts + (if step.Resolve? then [s.walks[k][0].username] else [])
    ensures EnabledAll(maxDepth, s, [step] + next) == EnabledAll(maxDepth, s', next)
    ensures EnabledAll(maxDepth, s', next) ==> Exec(maxDepth, s, [step] + next) == Exec(maxDepth, s', next)
  {
    FirstStep(maxDepth, s, step, next);
    s' := Apply(maxDepth, s, step);
    if step.Resolve? {
      ResolveFrame(maxDepth, s, step);
    }
  }

  /** Where the loop breaks: the first link below the limit that finds no account, or the end. */
  function StopAt(maxDepth: int, links: seq<Claim>, accounts: seq<bool>): (n: nat)
    requires |links| <= |accounts|
    ensures n <= |links|
    ensures forall i :: 0 <= i < n ==> links[i].depth >= maxDepth || accounts[i]
    ensures n < |links| ==> links[n].depth < maxDepth && !accounts[n]
    decreases |links|
  {
    if links == [] || (links[0].depth < maxDepth && !accounts[0]) then 0
    else 1 + StopAt(maxDepth, links[1..], accounts[1..])
  }

  lemma {:induction false} PlanHead(maxDepth: int, k: nat, links: seq<Claim>, accounts: seq<bool>,
      answers: seq<Option<(int, string)>>)
      returns (step: Step, next: seq<Step>)
    requires 0 < |links| <= |accounts| == |answers| && StopAt(maxDepth, links, accounts) > 0
    ensures WalkPlan(maxDepth, k, links, accounts, answers) == [step] + next
    ensures next == WalkPlan(maxDepth, k, links[1..], accounts[1..], answers[1..])
    ensures (step.Skip? || step.Resolve?) && step.k == k
    ensures step.Resolve? <==> links[0].depth < maxDepth
    ensures var n := StopAt(maxDepth, links, accounts);
            Shallow(maxDepth, links[..n]) ==
            (if step.Resolve? then [links[0].username] else []) + Shallow(maxDepth, links[1..][..n - 1])
    ensures Tries([step] + next) == (if step.Resolve? then 1 else 0) + Tries(next)
  {
    next := WalkPlan(maxDepth, k, links[1..], accounts[1..], answers[1..]);
    step := if links[0].depth >= maxDepth then Skip(k)
            else Resolve(k, if Refused(links[0].username) then None else answers[0]);
    assert ([step] + next)[1..] == next;
    var n := StopAt(maxDepth, links, accounts);
    assert links[..n][1..] == links[1..][..n - 1];
  }

  /** A walk tries exactly the claimed links that are below the maximum depth and come before the
      first such link without an account, in the order claimed; it leaves the others claimed. */
  lemma {:induction false} WalkTriesExactly(maxDepth: int, s: State, k: nat, links: seq<Claim>,
      accounts: seq<bool>, answers: seq<Option<(int, string)>>, plan: seq<Step>) returns (last: State)
    requires |links| <= |accounts| == |answers|
    requires plan == WalkPlan(maxDepth, k, links, accounts, answers)
    requires k in s.walks && s.walks[k] == links
    ensures EnabledAll(maxDepth, s, plan) && last == Exec(maxDepth, s, plan)
    ensures var n := StopAt(maxDepth, links, accounts);
            && k in last.walks && last.walks[k] == links[n..]
            && last.attempts == s.attempts + Shallow(maxDepth, links[..n])
    decreases |links|
  {
    if StopAt(maxDepth, links, accounts) == 0 {
      return s;
    }
    var step, next := PlanHead(maxDepth, k, links, accounts, answers);
    var s' := HeadStep(maxDepth, s, k, step, next);
    last := WalkTriesExactly(maxDepth, s', k, links[1..], accounts[1..], answers[1..], next);
    Associate(s.attempts, if step.Resolve? then [links[0].username] else [],
              Shallow(maxDepth, links[1..][..StopAt(maxDepth, links, accounts) - 1]));
  }

  /** So the number of tries, which chain_walk_phase returns, is the number of those links. */
  lemma {:induction false} TriesAreShallow(maxDepth: int, k: nat, links: seq<Claim>,
      accounts: seq<bool>, answers: seq<Option<(int, string)>>)
    requires |links| <= |accounts| == |answers|
    ensures Tries(WalkPlan(maxDepth, k, links, accounts, answers)) ==
            |Shallow(maxDepth, links[..StopAt(maxDepth, links, accounts)])|
    decreases |links|
  {
    if StopAt(maxDepth, links, accounts) > 0 {
      var step, next := PlanHead(maxDepth, k, links, accounts, answers);
      TriesAreShallow(maxDepth, k, links[1..], accounts[1..], answers[1..]);
    }
  }

  class Crawler {
    const maxDepth: int
    var db: State

    constructor (maxDepth: int)
      ensures this.maxDepth == maxDepth && db == EMPTY
    {
      this.maxDepth := maxDepth;
      db := EMPTY;
    }

    method UpsertTargetGroup(tgId: Option<int>, username: string, depth: int) returns (row: nat)
      modifies this
      ensures (db, row) == Upsert(old(db), tgId, username, depth)
    {
      if tgId.Some? && tgId.value in db.owner {
        row := db.owner[tgId.value];
        db := db.(groups := db.groups[row := Group(tgId, username, depth)]);
      } else {
        row := db.nextRow;
        db := db.(groups := db.groups[row := Group(tgId, username, depth)], nextRow := row + 1);
        if tgId.Some? {
          db := db.(owner := db.owner[tgId.value := row]);
        }
      }
    }

    method BulkInsertLinks(found: seq<string>, source: nat, depth: int) returns (inserted: nat)
      modifies this
      ensures db == InsertLinks(old(db), found, source, depth)
      ensures inserted == |db.links| - |old(db).links|
    {
      ghost var db0 := db;
      inserted := 0;
      for i := 0 to |found|
        invariant db == InsertLinks(db0, found[..i], source, depth)
        invariant inserted == |db.links| - |db0.links|
      {
        assert found[..i + 1][..i] == found[..i];
        if found[i] !in db.links {
          db := db.(links := db.links[found[i] := Link(db.nextLink, source, depth, false)],
                    nextLink := db.nextLink + 1);
          inserted := inserted + 1;
        }
      }
      assert found[..|found|] == found;
    }

    method BestLink(left: set<string>) returns (best: string)
      requires left != {} && forall u :: u in left ==> u in db.links
      ensures best in left && forall u :: u in left ==> EarlierLink(db.links[best], db.links[u])
    {
      best :| best in left;
      var todo := left - {best};
      while todo != {}
        invariant best in left && todo <= left
        invariant forall u :: u in left && u !in todo ==> EarlierLink(db.links[best], db.links[u])
        decreases todo
      {
        var u :| u in todo;
        if !EarlierLink(db.links[best], db.links[u]) {
          best := u;
        }
        todo := todo - {u};
      }
    }

    method SelectUnresolved(locked: set<string>, limit: nat) returns (names: seq<string>)
      ensures IsSelection(db.links, locked, limit, names)
    {
      names := [];
      var left := set u | u in db.links && !db.links[u].resolved && u !in locked;
      while |names| < limit && left != {}
        invariant |names| <= limit
        invariant forall u :: u in left <==> u in db.links && !db.links[u].resolved && u !in locked && u !in names
        invariant forall i :: 0 <= i < |names| ==>
                    names[i] in db.links && !db.links[names[i]].resolved && names[i] !in locked
        invariant forall i, j :: 0 <= i < j < |names| ==>
                    names[i] != names[j] && EarlierLink(db.links[names[i]], db.links[names[j]])
        invariant forall i, u :: 0 <= i < |names| && u in left ==> EarlierLink(db.links[names[i]], db.links[u])
        decreases left
      {
        var best := BestLink(left);
        names, left := names + [best], left - {best};
      }
    }

    /** Marks the rows resolved in the transaction that selects them. */
    method FetchUnresolvedLinksLocked(limit: nat, locked: set<string>)
        returns (k: nat, links: seq<Claim>, ghost names: seq<string>)
      modifies this
      ensures Enabled(maxDepth, old(db), StartWalk(limit, locked, names))
      ensures db == Apply(maxDepth, old(db), StartWalk(limit, locked, names))
      ensures k == old(db).nextWalk && k in db.walks && links == db.walks[k]
    {
      var picked := SelectUnresolved(locked, limit);
      names := picked;
      k := db.nextWalk;
      links := Claims(db.links, picked);
      db := db.(links := map u | u in db.links ::
                  if u in picked then db.links[u].(resolved := true) else db.links[u],
                walks := db.walks[k := links],
                nextWalk := k + 1,
                claimedBy := db.claimedBy + map u | u in picked :: k);
    }

    /** resolve_username for the head of walk k; `answer` is what the client says, None for an
        exception. */
    method ResolveUsername(k: nat, answer: Option<(int, string)>) returns (ghost step: Step)
      requires k in db.walks && db.walks[k] != [] && db.walks[k][0].depth < maxDepth
      modifies this
      ensures step == Resolve(k, if Refused(old(db).walks[k][0].username) then None else answer)
      ensures db == Apply(maxDepth, old(db), step)
    {
      var link := db.walks[k][0];
      step := Resolve(k, if Refused(link.username) then None else answer);
      db := db.(walks := db.walks[k := db.walks[k][1..]], attempts := db.attempts + [link.username]);
      if Refused(link.username) || answer.None? {
        return;
      }
      ResolveIs(maxDepth, old(db), k, answer);
      var row := UpsertTargetGroup(Some(answer.value.0), answer.value.1, link.depth + 1);
      db := db.(hops := db.hops + {(link.source, row)});
    }

    /** What the step of ResolveUsername leaves: one attempt more, and a group one deeper than the link for a
        username that is long enough, not reserved and answered; nothing else is written. */
    static lemma {:induction false} ResolveOutcome(maxDepth: int, s: State, k: nat, answer: Option<(int, string)>)
      requires k in s.walks && s.walks[k] != [] && s.walks[k][0].depth < maxDepth
      ensures var c := s.walks[k][0];
              var step := Resolve(k, if Refused(c.username) then None else answer);
              var s' := Apply(maxDepth, s, step);
              && s'.attempts == s.attempts + [c.username] && s'.links == s.links
              && (Refused(c.username) || answer.None? ==> s'.groups == s.groups && s'.hops == s.hops)
              && (!Refused(c.username) && answer.Some? ==>
                    exists row :: s'.groups == s.groups[row := Group(Some(answer.value.0), answer.value.1, c.depth + 1)]
                                  && s'.hops == s.hops + {(c.source, row)})
    {
      ResolveFrame(maxDepth, s, Resolve(k, if Refused(s.walks[k][0].username) then None else answer));
    }

    static lemma {:induction false} ResolveIs(maxDepth: int, s: State, k: nat, answer: Option<(int, string)>)
      requires Enabled(maxDepth, s, Resolve(k, answer)) && answer.Some?
      ensures var c := s.walks[k][0];
              var popped := Pop(s, k).(attempts := s.attempts + [c.username]);
              var (s', row) := Upsert(popped, Some(answer.value.0), answer.value.1, c.depth + 1);
              Apply(maxDepth, s, Resolve(k, answer)) == s'.(hops := s.hops + {(c.source, row)})
    {
    }

    /** The loop over the claimed links. */
    method WalkLinks(k: nat, links: seq<Claim>, accounts: seq<bool>, answers: seq<Option<(int, string)>>)
        returns (processed: nat)
      requires |links| <= |accounts| == |answers|
      requires k in db.walks && db.walks[k] == links
      modifies this
      ensures var plan := WalkPlan(maxDepth, k, links, accounts, answers);
              && EnabledAll(maxDepth, old(db), plan) && db == Exec(maxDepth, old(db), plan)
              && processed == Tries(plan)
      ensures k in db.walks
    {
      ghost var db0 := db;
      ghost var plan := WalkPlan(maxDepth, k, links, accounts, answers);
      ghost var rest := plan;
      processed := 0;
      var i := 0;
      while i < |links|
        invariant 0 <= i <= |links|
        invariant k in db.walks && db.walks[k] == links[i..]
        invariant rest == WalkPlan(maxDepth, k, links[i..], accounts[i..], answers[i..])
        invariant EnabledAll(maxDepth, db, rest) ==>
                    EnabledAll(maxDepth, db0, plan) && Exec(maxDepth, db0, plan) == Exec(maxDepth, db, rest)
        invariant Tries(plan) == processed + Tries(rest)
      {
        var link := links[i];
        Unroll(maxDepth, k, links, accounts, answers, i);
        ghost var next := WalkPlan(maxDepth, k, links[i + 1..], accounts[i + 1..], answers[i + 1..]);
        ghost var before := db;
        if link.depth >= maxDepth {
          db := db.(walks := db.walks[k := db.walks[k][1..]]);
          FirstStep(maxDepth, before, Skip(k), next);
        } else if !accounts[i] {
          break;
        } else {
          ghost var step := ResolveUsername(k, answers[i]);
          FirstStep(maxDepth, before, step, next);
          ResolveFrame(maxDepth, before, step);
          processed := processed + 1;
        }
        rest := next;
        i := i + 1;
      }
    }

    /** chain_walk_phase: accounts[i] says whether an account is free at the i-th link. */
    method ChainWalkPhase(limit: nat, locked: set<string>, accounts: seq<bool>, answers: seq<Option<(int, string)>>)
        returns (processed: nat, ghost names: seq<string>)
      requires |accounts| == |answers| == limit
      modifies this
      ensures Enabled(maxDepth, old(db), StartWalk(limit, locked, names))
      ensures var k := old(db).nextWalk;
              var started := Apply(maxDepth, old(db), StartWalk(limit, locked, names));
              var plan := WalkPlan(maxDepth, k, Claims(old(db).links, names), accounts, answers);
              && EnabledAll(maxDepth, started, plan) && k in Exec(maxDepth, started, plan).walks
              && db == Apply(maxDepth, Exec(maxDepth, started, plan), AbandonWalk(k))
              && processed == Tries(plan)
    {
      var k, links, picked := FetchUnresolvedLinksLocked(limit, locked);
      names := picked;
      processed := WalkLinks(k, links, accounts, answers);
      db := db.(walks := db.walks - {k});
    }

    /** One turn of WalkPlan at position i. */
    static lemma {:induction false} Unroll(maxDepth: int, k: nat, links: seq<Claim>, accounts: seq<bool>,
        answers: seq<Option<(int, string)>>, i: nat)
      requires i < |links| <= |accounts| == |answers|
      ensures links[i..][0] == links[i] && links[i..][1..] == links[i + 1..]
      ensures var here := WalkPlan(maxDepth, k, links[i..], accounts[i..], answers[i..]);
              var next := WalkPlan(maxDepth, k, links[i + 1..], accounts[i + 1..], answers[i + 1..]);
              if links[i].depth >= maxDepth then here == [Skip(k)] + next && Tries(here) == Tries(next)
              else if !accounts[i] then here == [] && Tries(here) == 0
              else
                && here == [Resolve(k, if Refused(links[i].username) then None else answers[i])] + next
                && Tries(here) == 1 + Tries(next)
    {
      assert links[i..][1..] == links[i + 1..];
      assert accounts[i..][1..] == accounts[i + 1..] && accounts[i..][0] == accounts[i];
      assert answers[i..][1..] == answers[i + 1..] && answers[i..][0] == answers[i];
      var next := WalkPlan(maxDepth, k, links[i + 1..], accounts[i + 1..], answers[i + 1..]);
      var here := WalkPlan(maxDepth, k, links[i..], accounts[i..], answers[i..]);
      if here != [] {
        assert here[1..] == next;
      }
    }
  }
}
