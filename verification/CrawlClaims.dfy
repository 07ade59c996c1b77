/** Each discovered link is claimed once and tried at most once, and the crawl runs out of work. */
module CrawlClaims {
  import opened Base
  import opened Crawl

  // ---------------- at most once ----------------

  predicate Distinct(cs: seq<Claim>) {
    forall i, j :: 0 <= i < j < |cs| ==> cs[i].username != cs[j].username
  }

  ghost predicate ClaimInv(s: State) {
    && (forall u :: u in s.links && s.links[u].resolved <==> u in s.claimedBy)
    && (forall u :: u in s.claimedBy ==> s.claimedBy[u] < s.nextWalk)
    && (forall k :: k in s.walks ==> k < s.nextWalk && Distinct(s.walks[k]))
    && (forall k, i :: k in s.walks && 0 <= i < |s.walks[k]| ==> Held(s, k, s.walks[k][i].username))
    && (forall i, j :: 0 <= i < j < |s.attempts| ==> s.attempts[i] != s.attempts[j])
    && (forall u :: u in s.attempts ==> u in s.claimedBy)
  }

  /** u is claimed by walk k, and not tried yet. */
  predicate Held(s: State, k: nat, u: string) {
    u in s.claimedBy && s.claimedBy[u] == k && u !in s.attempts
  }

  /** Claims are permanent: same walk, still resolved, same depth. */
  predicate ClaimsKept(s: State, s': State) {
    && (forall u :: u in s.claimedBy ==> u in s'.claimedBy && s'.claimedBy[u] == s.claimedBy[u])
    && (forall u :: u in s.links ==>
          u in s'.links && s'.links[u].depth == s.links[u].depth && s'.links[u].source == s.links[u].source
          && (s.links[u].resolved ==> s'.links[u].resolved))
    && |s.attempts| <= |s'.attempts| && s'.attempts[..|s.attempts|] == s.attempts
  }

  lemma {:induction false} NewClaims(maxDepth: int, s: State, step: Step)
    requires ClaimInv(s) && Enabled(maxDepth, s, step) && step.StartWalk?
    ensures forall u :: u in step.names ==>
              u in s.links && !s.links[u].resolved && u !in s.claimedBy && u !in s.attempts
    ensures Distinct(Claims(s.links, step.names))
  {
  }

  lemma {:induction false} StartWalkKeepsClaims(maxDepth: int, s: State, step: Step)
    requires ClaimInv(s) && Enabled(maxDepth, s, step) && step.StartWalk?
    ensures ClaimInv(Apply(maxDepth, s, step)) && ClaimsKept(s, Apply(maxDepth, s, step))
  {
    var s' := Apply(maxDepth, s, step);
    NewClaims(maxDepth, s, step);
    forall k, i | k in s'.walks && 0 <= i < |s'.walks[k]|
      ensures Held(s', k, s'.walks[k][i].username)
    {
      if k == s.nextWalk {
        assert step.names[i] in step.names;
      } else {
        assert Held(s, k, s.walks[k][i].username);
      }
    }
  }

  /** Each walk left is one of before, or what follows its head. */
  predicate WalksShrink(s: State, s': State) {
    forall k :: k in s'.walks ==>
      k in s.walks && (s'.walks[k] == s.walks[k] || (s.walks[k] != [] && s'.walks[k] == s.walks[k][1..]))
  }

  lemma {:induction false} StepShrinksWalks(maxDepth: int, s: State, step: Step)
    requires Enabled(maxDepth, s, step) && !step.StartWalk?
    ensures WalksShrink(s, Apply(maxDepth, s, step))
  {
    if step.Resolve? {
      ResolveFrame(maxDepth, s, step);
    } else if step.Seed? {
      UpsertFrame(s, step.tgId, step.username, 0);
    } else if step.FinishScan? {
      var scan := s.scans[step.k];
      InsertLinksFrame(s.(scans := s.scans - {step.k}), step.found, scan.row, scan.depth + 1);
    }
  }

  /** The head of walk k moves to the attempts. */
  lemma {:induction false} ResolveKeepsClaims(maxDepth: int, s: State, step: Step)
    requires ClaimInv(s) && Enabled(maxDepth, s, step) && step.Resolve?
    ensures ClaimInv(Apply(maxDepth, s, step)) && ClaimsKept(s, Apply(maxDepth, s, step))
  {
    ResolveFrame(maxDepth, s, step);
    TryKeepsClaims(s, Apply(maxDepth, s, step), step.k);
  }

  lemma {:induction false} TryKeepsClaims(s: State, s': State, k: nat)
    requires ClaimInv(s) && k in s.walks && s.walks[k] != []
    requires s'.links == s.links && s'.claimedBy == s.claimedBy && s'.nextWalk == s.nextWalk
    requires s'.walks == s.walks[k := s.walks[k][1..]] && s'.attempts == s.attempts + [s.walks[k][0].username]
    ensures ClaimInv(s') && ClaimsKept(s, s')
  {
    assert Held(s, k, s.walks[k][0].username);
    forall j, i | j in s'.walks && 0 <= i < |s'.walks[j]|
      ensures Held(s', j, s'.walks[j][i].username)
    {
      if j == k {
        assert s'.walks[j][i] == s.walks[j][i + 1];
      }
      assert Held(s, j, s'.walks[j][i].username);
    }
  }

  lemma {:induction false} FinishScanKeepsClaims(maxDepth: int, s: State, step: Step)
    requires ClaimInv(s) && Enabled(maxDepth, s, step) && step.FinishScan?
    ensures ClaimInv(Apply(maxDepth, s, step)) && ClaimsKept(s, Apply(maxDepth, s, step))
  {
    var scan := s.scans[step.k];
    InsertLinksFrame(s.(scans := s.scans - {step.k}), step.found, scan.row, scan.depth + 1);
  }

  /** Steps that leave links, claims and attempts alone. */
  lemma {:induction false} QuietKeepsClaims(s: State, s': State)
    requires ClaimInv(s) && WalksShrink(s, s')
    requires s'.links == s.links && s'.claimedBy == s.claimedBy
    requires s'.attempts == s.attempts && s'.nextWalk == s.nextWalk
    ensures ClaimInv(s') && ClaimsKept(s, s')
  {
    forall k, i | k in s'.walks && 0 <= i < |s'.walks[k]|
      ensures Held(s', k, s'.walks[k][i].username)
    {
      if s'.walks[k] != s.walks[k] {
        assert s'.walks[k][i] == s.walks[k][i + 1];
      }
      assert Held(s, k, s'.walks[k][i].username);
    }
  }

  lemma {:induction false} StepKeepsClaims(maxDepth: int, s: State, step: Step)
    requires ClaimInv(s) && Enabled(maxDepth, s, step)
    ensures ClaimInv(Apply(maxDepth, s, step)) && ClaimsKept(s, Apply(maxDepth, s, step))
  {
    if step.StartWalk? {
      StartWalkKeepsClaims(maxDepth, s, step);
    } else if step.Resolve? {
      ResolveKeepsClaims(maxDepth, s, step);
    } else if step.FinishScan? {
      FinishScanKeepsClaims(maxDepth, s, step);
    } else {
      if step.Seed? {
        UpsertFrame(s, step.tgId, step.username, 0);
      }
      StepShrinksWalks(maxDepth, s, step);
      QuietKeepsClaims(s, Apply(maxDepth, s, step));
    }
  }

  lemma {:induction false} RunKeepsClaims(maxDepth: int, s: State, steps: seq<Step>)
    requires ClaimInv(s) && EnabledAll(maxDepth, s, steps)
    ensures ClaimInv(Exec(maxDepth, s, steps)) && ClaimsKept(s, Exec(maxDepth, s, steps))
    decreases |steps|
  {
    if steps != [] {
      StepKeepsClaims(maxDepth, s, steps[0]);
      var s1 := Apply(maxDepth, s, steps[0]);
      RunKeepsClaims(maxDepth, s1, steps[1..]);
      var s2 := Exec(maxDepth, s1, steps[1..]);
      assert s2.attempts[..|s.attempts|] == s2.attempts[..|s1.attempts|][..|s.attempts|];
    }
  }

  lemma {:induction false} DistinctSize(xs: seq<string>, all: set<string>)
    requires forall i, j :: 0 <= i < j < |xs| ==> xs[i] != xs[j]
    requires forall x :: x in xs ==> x in all
    ensures |xs| <= |all|
  {
    if xs != [] {
      var last := xs[|xs| - 1];
      DistinctSize(xs[..|xs| - 1], all - {last});
    }
  }

  /** Over any interleaving of walks: a claimed link keeps its walk forever and is never unresolved
      again, no username is tried twice, and attempts never exceed the number of link rows. */
  lemma {:induction false} AtMostOnce(maxDepth: int, before: seq<Step>, after: seq<Step>)
    requires EnabledAll(maxDepth, EMPTY, before)
    requires EnabledAll(maxDepth, Exec(maxDepth, EMPTY, before), after)
    ensures var s := Exec(maxDepth, EMPTY, before);
            var s' := Exec(maxDepth, s, after);
            && (forall u :: u in s.links && s.links[u].resolved <==> u in s.claimedBy)
            && (forall u :: u in s.claimedBy ==>
                  u in s'.claimedBy && s'.claimedBy[u] == s.claimedBy[u] && u in s'.links && s'.links[u].resolved)
            && (forall i, j :: 0 <= i < j < |s'.attempts| ==> s'.attempts[i] != s'.attempts[j])
            && (forall u :: u in s'.attempts ==> u in s'.links && s'.links[u].resolved)
            && |s'.attempts| <= |s'.links|
  {
    RunKeepsClaims(maxDepth, EMPTY, before);
    var s := Exec(maxDepth, EMPTY, before);
    RunKeepsClaims(maxDepth, s, after);
    var s' := Exec(maxDepth, s, after);
    DistinctSize(s'.attempts, s'.links.Keys);
  }

  // ---------------- but not at least once ----------------

  /** Some walk still holds u, below the depth at which it would pass it over. */
  ghost predicate Live(maxDepth: int, s: State, u: string) {
    exists k, i :: LiveAt(maxDepth, s, u, k, i)
  }

  predicate LiveAt(maxDepth: int, s: State, u: string, k: nat, i: nat) {
    k in s.walks && i < |s.walks[k]| && s.walks[k][i].username == u && s.walks[k][i].depth < maxDepth
  }

  lemma {:induction false} WalkOrigin(maxDepth: int, s: State, step: Step, u: string, k: nat, i: nat)
    requires ClaimInv(s) && Enabled(maxDepth, s, step) && u in s.claimedBy
    requires LiveAt(maxDepth, Apply(maxDepth, s, step), u, k, i)
    ensures LiveAt(maxDepth, s, u, k, i) || LiveAt(maxDepth, s, u, k, i + 1)
  {
    if step.StartWalk? {
      NewClaims(maxDepth, s, step);
    } else {
      StepShrinksWalks(maxDepth, s, step);
    }
  }

  lemma {:induction false} NewAttempt(maxDepth: int, s: State, step: Step, u: string)
    requires Enabled(maxDepth, s, step) && u !in s.attempts && u in Apply(maxDepth, s, step).attempts
    ensures Live(maxDepth, s, u)
  {
    if step.Resolve? {
      ResolveFrame(maxDepth, s, step);
      assert LiveAt(maxDepth, s, u, step.k, 0);
    } else if step.Seed? {
      UpsertFrame(s, step.tgId, step.username, 0);
    } else if step.FinishScan? {
      var scan := s.scans[step.k];
      InsertLinksFrame(s.(scans := s.scans - {step.k}), step.found, scan.row, scan.depth + 1);
    }
  }

  lemma {:induction false} DeadStaysDead(maxDepth: int, s: State, steps: seq<Step>, u: string)
    requires ClaimInv(s) && EnabledAll(maxDepth, s, steps)
    requires u in s.claimedBy && u !in s.attempts && !Live(maxDepth, s, u)
    ensures u !in Exec(maxDepth, s, steps).attempts
    decreases |steps|
  {
    if steps != [] {
      var s1 := Apply(maxDepth, s, steps[0]);
      StepKeepsClaims(maxDepth, s, steps[0]);
      if u in s1.attempts {
        NewAttempt(maxDepth, s, steps[0], u);
      }
      if Live(maxDepth, s1, u) {
        var k, i :| LiveAt(maxDepth, s1, u, k, i);
        WalkOrigin(maxDepth, s, steps[0], u, k, i);
      }
      DeadStaysDead(maxDepth, s1, steps[1..], u);
    }
  }

  /** The walk goes on, without answers, until it has tried u. */
  lemma {:induction false} Reach(maxDepth: int, s: State, u: string, k: nat, i: nat) returns (steps: seq<Step>)
    requires LiveAt(maxDepth, s, u, k, i)
    ensures EnabledAll(maxDepth, s, steps) && u in Exec(maxDepth, s, steps).attempts
    decreases i
  {
    var step := if s.walks[k][0].depth >= maxDepth then Skip(k) else Resolve(k, None);
    var s1 := Apply(maxDepth, s, step);
    if step.Resolve? {
      ResolveFrame(maxDepth, s, step);
    }
    if i == 0 {
      steps := [step];
      assert steps[1..] == [] && EnabledAll(maxDepth, s1, []) && Exec(maxDepth, s1, []) == s1;
      assert s1.attempts[|s.attempts|] == u;
    } else {
      assert s1.walks[k] == s.walks[k][1..];
      var rest := Reach(maxDepth, s1, u, k, i - 1);
      steps := [step] + rest;
      assert steps[1..] == rest;
    }
  }

  /** A claimed link not tried yet can still be tried exactly when a walk still holds it below the
      maximum depth: one that a stopped walk left behind is lost for good. */
  lemma {:induction false} TriedLaterIff(maxDepth: int, before: seq<Step>, u: string)
    requires EnabledAll(maxDepth, EMPTY, before)
    requires var s := Exec(maxDepth, EMPTY, before); u in s.claimedBy && u !in s.attempts
    ensures var s := Exec(maxDepth, EMPTY, before);
            (exists steps :: EnabledAll(maxDepth, s, steps) && u in Exec(maxDepth, s, steps).attempts)
            <==> Live(maxDepth, s, u)
  {
    RunKeepsClaims(maxDepth, EMPTY, before);
    var s := Exec(maxDepth, EMPTY, before);
    if Live(maxDepth, s, u) {
      var k, i :| LiveAt(maxDepth, s, u, k, i);
      var steps := Reach(maxDepth, s, u, k, i);
    } else {
      forall steps | EnabledAll(maxDepth, s, steps)
        ensures u !in Exec(maxDepth, s, steps).attempts
      {
        DeadStaysDead(maxDepth, s, steps, u);
      }
    }
  }

  /** The walk that claimed "abcd" is cut off before it tries the link. */
  const CUT_OFF: seq<Step> :=
    [Seed(Some(1), "seed"), StartScan(0, 0), FinishScan(0, ["abcd"]), StartWalk(10, {}, ["abcd"]), AbandonWalk(0)]

  /** The states the run passes through. */
  lemma {:induction false} CutOffStates(maxDepth: int) returns (ss: seq<State>)
    ensures |ss| == 6 && ss[0] == EMPTY
    ensures forall i :: 0 <= i < 5 ==>
              Enabled(maxDepth, ss[i], CUT_OFF[i]) && ss[i + 1] == Apply(maxDepth, ss[i], CUT_OFF[i])
    ensures "abcd" in ss[5].claimedBy && "abcd" in ss[5].links && ss[5].attempts == [] && ss[5].walks == map[]
  {
    var s1 := Apply(maxDepth, EMPTY, CUT_OFF[0]);
    var s2 := Apply(maxDepth, s1, CUT_OFF[1]);
    var s3 := Apply(maxDepth, s2, CUT_OFF[2]);
    OneLink(s2.(scans := s2.scans - {0}));
    assert s3.links == map["abcd" := Link(0, 0, 1, false)];
    var s4, s5 := ClaimAndAbandon(maxDepth, s3);
    ss := [EMPTY, s1, s2, s3, s4, s5];
  }

  lemma {:induction false} ClaimAndAbandon(maxDepth: int, s: State) returns (s': State, s'': State)
    requires s.links == map["abcd" := Link(0, 0, 1, false)] && s.walks == map[] && s.nextWalk == 0 && s.attempts == []
    ensures Enabled(maxDepth, s, CUT_OFF[3]) && s' == Apply(maxDepth, s, CUT_OFF[3])
    ensures Enabled(maxDepth, s', CUT_OFF[4]) && s'' == Apply(maxDepth, s', CUT_OFF[4])
    ensures "abcd" in s''.claimedBy && "abcd" in s''.links && s''.attempts == [] && s''.walks == map[]
  {
    s' := Apply(maxDepth, s, CUT_OFF[3]);
    s'' := Apply(maxDepth, s', CUT_OFF[4]);
    assert s''.walks == map[];
  }

  /** Steps that lead from state to state make a run. */
  lemma {:induction false} RunOf(maxDepth: int, ss: seq<State>, steps: seq<Step>)
    requires |ss| == |steps| + 1
    requires forall i :: 0 <= i < |steps| ==>
               Enabled(maxDepth, ss[i], steps[i]) && ss[i + 1] == Apply(maxDepth, ss[i], steps[i])
    ensures EnabledAll(maxDepth, ss[0], steps) && Exec(maxDepth, ss[0], steps) == ss[|steps|]
    decreases |steps|
  {
    if steps != [] {
      RunOf(maxDepth, ss[1..], steps[1..]);
    }
  }

  /** At-least-once fails: this run leaves a link claimed, never tried, and never to be tried again. */
  lemma {:induction false} LinkIsLost(maxDepth: int)
    ensures EnabledAll(maxDepth, EMPTY, CUT_OFF)
    ensures var s := Exec(maxDepth, EMPTY, CUT_OFF);
            && "abcd" in s.claimedBy && "abcd" !in s.attempts && !Live(maxDepth, s, "abcd")
            && forall steps :: EnabledAll(maxDepth, s, steps) ==> "abcd" !in Exec(maxDepth, s, steps).attempts
  {
    var ss := CutOffStates(maxDepth);
    RunOf(maxDepth, ss, CUT_OFF);
    RunKeepsClaims(maxDepth, EMPTY, CUT_OFF);
    forall steps | EnabledAll(maxDepth, ss[5], steps)
      ensures "abcd" !in Exec(maxDepth, ss[5], steps).attempts
    {
      DeadStaysDead(maxDepth, ss[5], steps, "abcd");
    }
  }

  lemma {:induction false} OneLink(s: State)
    requires s.links == map[] && s.nextLink == 0
    ensures InsertLinks(s, ["abcd"], 0, 1).links == map["abcd" := Link(0, 0, 1, false)]
  {
    assert ["abcd"][..0] == [];
    assert InsertLinks(s, ["abcd"][..0], 0, 1) == s;
  }

  // ---------------- running out of work ----------------

  function Unresolved(s: State): set<string> {
    set u | u in s.links && !s.links[u].resolved
  }

  /** Usernames never seen count twice: once to be inserted, once to be claimed. */
  function Work(universe: set<string>, s: State): nat {
    2 * |universe - s.links.Keys| + |Unresolved(s)|
  }

  predicate Within(universe: set<string>, s: State) {
    s.links.Keys <= universe
  }

  /** A step that inserts a link or claims one. */
  predicate Productive(maxDepth: int, s: State, step: Step)
    requires Enabled(maxDepth, s, step)
  {
    (step.FinishScan? && exists u :: u in step.found && u !in s.links) || (step.StartWalk? && step.names != [])
  }

  lemma {:induction false} Shrinks(a: set<string>, b: set<string>)
    requires a < b
    ensures |a| < |b|
  {
    assert b == a + (b - a);
  }

  lemma {:induction false} StartWalkWork(maxDepth: int, universe: set<string>, s: State, step: Step)
    requires Enabled(maxDepth, s, step) && step.StartWalk?
    ensures Work(universe, Apply(maxDepth, s, step)) + (if step.names != [] then 1 else 0) <= Work(universe, s)
  {
    var s' := Apply(maxDepth, s, step);
    assert s'.links.Keys == s.links.Keys;
    if step.names == [] {
      assert s'.links == s.links;
    } else {
      assert step.names[0] in step.names;
      assert step.names[0] in Unresolved(s) && step.names[0] !in Unresolved(s');
      Shrinks(Unresolved(s'), Unresolved(s));
    }
  }

  lemma {:induction false} MovedWork(universe: set<string>, known: set<string>, added: set<string>, open: set<string>)
    requires added <= universe && added !! known && added !! open
    ensures 2 * |universe - (known + added)| + |open + added| + |added| == 2 * |universe - known| + |open|
  {
    assert universe - known == (universe - (known + added)) + added;
  }

  lemma {:induction false} FinishScanLinks(maxDepth: int, s: State, step: Step) returns (added: set<string>)
    requires Enabled(maxDepth, s, step) && step.FinishScan?
    ensures Apply(maxDepth, s, step).links.Keys == s.links.Keys + added && added !! s.links.Keys
    ensures Unresolved(Apply(maxDepth, s, step)) == Unresolved(s) + added
    ensures Productive(maxDepth, s, step) ==> added != {}
  {
    var scan := s.scans[step.k];
    InsertLinksFrame(s.(scans := s.scans - {step.k}), step.found, scan.row, scan.depth + 1);
    added := Apply(maxDepth, s, step).links.Keys - s.links.Keys;
    forall u | u in step.found && u !in s.links
      ensures u in added
    {
    }
  }

  lemma {:induction false} FinishScanWork(maxDepth: int, universe: set<string>, s: State, step: Step)
    requires Enabled(maxDepth, s, step) && step.FinishScan?
    requires Within(universe, Apply(maxDepth, s, step))
    ensures Work(universe, Apply(maxDepth, s, step)) + (if Productive(maxDepth, s, step) then 1 else 0)
            <= Work(universe, s)
  {
    var added := FinishScanLinks(maxDepth, s, step);
    MovedWork(universe, s.links.Keys, added, Unresolved(s));
    if added != {} {
      assert |added| > 0;
    }
  }

  lemma {:induction false} QuietLinks(maxDepth: int, s: State, step: Step)
    requires Enabled(maxDepth, s, step) && !step.StartWalk? && !step.FinishScan?
    ensures Apply(maxDepth, s, step).links == s.links
  {
    if step.Seed? {
      UpsertFrame(s, step.tgId, step.username, 0);
    } else if step.Resolve? {
      ResolveFrame(maxDepth, s, step);
    }
  }

  lemma {:induction false} SameLinksSameWork(universe: set<string>, s: State, s': State)
    requires s'.links == s.links
    ensures Work(universe, s') == Work(universe, s)
  {
    assert Unresolved(s') == Unresolved(s);
  }

  lemma {:induction false} StepWork(maxDepth: int, universe: set<string>, s: State, step: Step)
    requires Enabled(maxDepth, s, step) && Within(universe, Apply(maxDepth, s, step))
    ensures Work(universe, Apply(maxDepth, s, step)) + (if Productive(maxDepth, s, step) then 1 else 0)
            <= Work(universe, s)
  {
    if step.StartWalk? {
      StartWalkWork(maxDepth, universe, s, step);
    } else if step.FinishScan? {
      FinishScanWork(maxDepth, universe, s, step);
    } else {
      QuietLinks(maxDepth, s, step);
      SameLinksSameWork(universe, s, Apply(maxDepth, s, step));
    }
  }

  function ProductiveSteps(maxDepth: int, s: State, steps: seq<Step>): nat
    requires EnabledAll(maxDepth, s, steps)
    decreases |steps|
  {
    if steps == [] then 0
    else (if Productive(maxDepth, s, steps[0]) then 1 else 0)
         + ProductiveSteps(maxDepth, Apply(maxDepth, s, steps[0]), steps[1..])
  }

  lemma {:induction false} RunWork(maxDepth: int, universe: set<string>, s: State, steps: seq<Step>)
    requires ClaimInv(s) && EnabledAll(maxDepth, s, steps) && Within(universe, Exec(maxDepth, s, steps))
    ensures Work(universe, Exec(maxDepth, s, steps)) + ProductiveSteps(maxDepth, s, steps) <= Work(universe, s)
    decreases |steps|
  {
    if steps != [] {
      var s1 := Apply(maxDepth, s, steps[0]);
      StepKeepsClaims(maxDepth, s, steps[0]);
      RunKeepsClaims(maxDepth, s1, steps[1..]);
      assert s1.links.Keys <= Exec(maxDepth, s1, steps[1..]).links.Keys;
      StepWork(maxDepth, universe, s, steps[0]);
      RunWork(maxDepth, universe, s1, steps[1..]);
    }
  }

  /** In a finite universe of usernames, every run has at most 2|U| steps that insert or claim a
      link: afterwards the crawl only idles. */
  lemma {:induction false} CrawlRunsDry(maxDepth: int, universe: set<string>, steps: seq<Step>)
    requires EnabledAll(maxDepth, EMPTY, steps) && Within(universe, Exec(maxDepth, EMPTY, steps))
    ensures ProductiveSteps(maxDepth, EMPTY, steps) <= 2 * |universe|
    ensures |Exec(maxDepth, EMPTY, steps).attempts| <= |universe|
  {
    assert Unresolved(EMPTY) == {};
    assert universe - EMPTY.links.Keys == universe;
    RunWork(maxDepth, universe, EMPTY, steps);
    RunKeepsClaims(maxDepth, EMPTY, steps);
    DistinctSize(Exec(maxDepth, EMPTY, steps).attempts, universe);
  }
}
