/** parse_history: a message stream cut into flushed batches over an insert-if-absent table. */
module HistoryScan {
  import opened Base
  import opened Inserts
  import opened RateLimiter
  import Crawl
  import Discovery

  /** A streamed message, with the links and keywords found in its text. */
  datatype Msg = Msg(id: int, text: string, date: int, sender: Option<int>, links: set<string>, keywords: seq<string>)

  datatype Row = Row(text: string, date: int, sender: Option<int>, hasLinks: bool, keywords: seq<string>)

  type Table = map<(int, int), Row>

  function RowOf(m: Msg): Row {
    Row(if |m.text| <= 10000 then m.text else m.text[..10000], m.date, m.sender, m.links != {}, m.keywords)
  }

  function RowsOf(group: int, ms: seq<Msg>): (rows: seq<((int, int), Row)>)
    ensures |rows| == |ms|
  {
    seq(|ms|, i requires 0 <= i < |ms| => ((group, ms[i].id), RowOf(ms[i])))
  }

  function MsgKeys(group: int, ms: seq<Msg>): set<(int, int)> {
    set i | 0 <= i < |ms| :: (group, ms[i].id)
  }

  /** bulk_insert_messages */
  function InsertAll(t: Table, group: int, ms: seq<Msg>): Table {
    InsertAbsent(t, RowsOf(group, ms))
  }

  function LinksOf(ms: seq<Msg>): set<string> {
    set i, u | 0 <= i < |ms| && u in ms[i].links :: u
  }

  /** last_msg_id after the messages; a missing or zero cursor counts as 0. */
  function LastId(start: Option<int>, ms: seq<Msg>): Option<int>
    decreases |ms|
  {
    if ms == [] then start
    else
      var before := LastId(start, ms[..|ms| - 1]);
      Some(Max(if before.Some? then before.value else 0, ms[|ms| - 1].id))
  }

  // ---------------- the table forgets how the stream was cut ----------------

  lemma {:induction false} InsertPart(t: Table, group: int, ms: seq<Msg>, i: nat, j: nat)
    requires i <= j <= |ms|
    ensures InsertAll(InsertAll(t, group, ms[..i]), group, ms[i..j]) == InsertAll(t, group, ms[..j])
  {
    var rows := RowsOf(group, ms);
    assert RowsOf(group, ms[..i]) == rows[..i];
    assert RowsOf(group, ms[i..j]) == rows[i..j];
    assert RowsOf(group, ms[..j]) == rows[..j];
    InsertSlice(t, rows, i, j);
  }

  lemma {:induction false} KeysAgree(group: int, ms: seq<Msg>)
    ensures RowKeys(RowsOf(group, ms)) == MsgKeys(group, ms)
  {
    var rows := RowsOf(group, ms);
    var keys := MsgKeys(group, ms);
    forall k | k in keys
      ensures k in RowKeys(rows)
    {
      var i :| 0 <= i < |ms| && (group, ms[i].id) == k;
      assert rows[i].0 == k;
    }
    forall k | k in RowKeys(rows)
      ensures k in keys
    {
      var i :| 0 <= i < |rows| && rows[i].0 == k;
      assert (group, ms[i].id) == k;
    }
  }

  /** The stored keys are the old keys plus those streamed; old rows are kept; a new key carries the
      row of its first message. */
  lemma {:induction false} ScanIsUnion(t: Table, group: int, ms: seq<Msg>)
    ensures InsertAll(t, group, ms).Keys == t.Keys + MsgKeys(group, ms)
    ensures forall k :: k in t ==> InsertAll(t, group, ms)[k] == t[k]
    ensures forall i :: 0 <= i < |ms| && (group, ms[i].id) !in t
                        && (forall j :: 0 <= j < i ==> ms[j].id != ms[i].id) ==>
              (group, ms[i].id) in InsertAll(t, group, ms) && InsertAll(t, group, ms)[(group, ms[i].id)] == RowOf(ms[i])
  {
    var rows := RowsOf(group, ms);
    InsertIsUnion(t, rows);
    KeysAgree(group, ms);
    forall i | 0 <= i < |ms| && (group, ms[i].id) !in t && forall j :: 0 <= j < i ==> ms[j].id != ms[i].id
      ensures (group, ms[i].id) in InsertAll(t, group, ms)
      ensures InsertAll(t, group, ms)[(group, ms[i].id)] == RowOf(ms[i])
    {
      FirstAt(rows, i);
      assert rows[i].0 in RowKeys(rows);
    }
  }

  /** Rerunning a scan stores nothing new, and rerunning one that was cut off completes it: either way
      the table is that of a single full scan. */
  lemma {:induction false} RescanCompletes(t: Table, group: int, ms: seq<Msg>, cut: nat)
    requires cut <= |ms|
    ensures InsertAll(InsertAll(t, group, ms[..cut]), group, ms) == InsertAll(t, group, ms)
  {
    assert RowsOf(group, ms[..cut]) == RowsOf(group, ms)[..cut];
    RerunCompletes(t, RowsOf(group, ms), cut);
  }

  /** Within a scan the cursor never moves back. */
  lemma {:induction false} LastIdGrows(start: Option<int>, ms: seq<Msg>, i: nat, j: nat)
    requires 0 < i <= j <= |ms|
    ensures LastId(start, ms[..i]).Some? && LastId(start, ms[..j]).Some?
    ensures LastId(start, ms[..i]).value <= LastId(start, ms[..j]).value
    ensures start.Some? ==> start.value <= LastId(start, ms[..i]).value
    decreases j
  {
    if i < j {
      LastIdGrows(start, ms, i, j - 1);
      assert ms[..j][..j - 1] == ms[..j - 1];
    } else {
      assert ms[..j][..j - 1] == ms[..j - 1];
      if j > 1 {
        LastIdGrows(start, ms, j - 1, j - 1);
      }
    }
  }

  // ---------------- the scan ----------------

  /** The group row as read before the scan. */
  datatype GroupRef = GroupRef(row: nat, tgId: int, depth: int, lastScanned: Option<int>)

  datatype HistoryResult = HistoryResult(groupTgId: int, messages: nat, links: nat, lastMsgId: Option<int>)

  /** How many messages the loop takes from the stream. */
  function Taken(stream: seq<Msg>, limit: int): nat {
    if limit <= 0 then 0 else if |stream| <= limit then |stream| else limit
  }

  /** The cursors persisted at the batch boundaries among the first n messages. */
  function Cursors(start: Option<int>, ms: seq<Msg>, n: nat, batch: int): seq<int>
    requires n <= |ms|
  {
    if n == 0 then []
    else Cursors(start, ms, n - 1, batch) + if Whole(n, batch) == n then [LastId(start, ms[..n]).value] else []
  }

  /** Persisted cursors never decrease. */
  lemma {:induction false} CursorsGrow(start: Option<int>, ms: seq<Msg>, n: nat, batch: int)
    requires n <= |ms|
    ensures n == 0 ==> Cursors(start, ms, n, batch) == []
    ensures n > 0 ==> LastId(start, ms[..n]).Some?
    ensures Ordered(start, Cursors(start, ms, n, batch), if n > 0 then LastId(start, ms[..n]).value else 0)
  {
    if n > 0 {
      CursorsGrow(start, ms, n - 1, batch);
      LastIdGrows(start, ms, n, n);
      if n > 1 {
        LastIdGrows(start, ms, n - 1, n);
        OrderedUpTo(start, Cursors(start, ms, n - 1, batch), LastId(start, ms[..n - 1]).value,
                    LastId(start, ms[..n]).value);
      }
    }
  }

  lemma {:induction false} OrderedUpTo(start: Option<int>, cs: seq<int>, top: int, v: int)
    requires Ordered(start, cs, top) && top <= v && (start.Some? ==> start.value <= v)
    ensures Ordered(start, cs, v) && Ordered(start, cs + [v], v)
  {
  }

  /** cs never decreases and lies between the starting cursor and top. */
  predicate Ordered(start: Option<int>, cs: seq<int>, top: int) {
    && (forall i, j :: 0 <= i < j < |cs| ==> cs[i] <= cs[j])
    && (forall i :: 0 <= i < |cs| ==> cs[i] <= top && (start.Some? ==> start.value <= cs[i]))
  }

  /** The scanner's fields at one moment. */
  datatype Saved = Saved(
    messages: Table,
    db: Crawl.State,
    rt: Runtime,
    storedToday: int,
    cursors: seq<int>)

  /** A full batch: stored, counted, and the cursor persisted. */
  function Flushed(s: Saved, group: int, batch: seq<Msg>, lastMsgId: int): Saved {
    s.(messages := InsertAll(s.messages, group, batch),
       rt := Bumped(s.rt, MessagesToday, |batch|),
       storedToday := s.rt.messagesToday + |batch|,
       cursors := s.cursors + [lastMsgId])
  }

  /** What the loop has saved after n messages: whole batches, as one insert. */
  function After(s: Saved, group: GroupRef, stream: seq<Msg>, n: nat, batch: int): Saved
    requires n <= |stream|
  {
    var done := Whole(n, batch);
    s.(messages := InsertAll(s.messages, group.tgId, stream[..done]),
       rt := Bumped(s.rt, MessagesToday, done),
       storedToday := if done > 0 then s.rt.messagesToday + done else s.storedToday,
       cursors := s.cursors + Cursors(group.lastScanned, stream, n, batch))
  }

  /** What a finished scan of n messages has saved: one union of the messages and of their links (those
      inserted in the order `found`), and the account's counters up by n messages and one group. */
  function Finished(s: Saved, group: GroupRef, stream: seq<Msg>, n: nat, batch: int, found: seq<string>): Saved
    requires n <= |stream|
  {
    After(s, group, stream, n, batch).(
      messages := InsertAll(s.messages, group.tgId, stream[..n]),
      db := Crawl.InsertLinks(s.db, found, group.row, group.depth + 1),
      rt := Bumped(Bumped(s.rt, MessagesToday, n), GroupsToday, 1))
  }

  function Wrapped(s: Saved, group: GroupRef, batch: seq<Msg>, found: seq<string>): Saved {
    s.(messages := InsertAll(s.messages, group.tgId, batch),
       db := Crawl.InsertLinks(s.db, found, group.row, group.depth + 1),
       rt := Bumped(Bumped(s.rt, MessagesToday, |batch|), GroupsToday, 1))
  }

  lemma {:induction false} WrappedIsFinished(s: Saved, group: GroupRef, stream: seq<Msg>, n: nat, batch: int,
      found: seq<string>)
    requires n <= |stream|
    ensures Wrapped(After(s, group, stream, n, batch), group, stream[Whole(n, batch)..n], found) ==
            Finished(s, group, stream, n, batch, found)
  {
    InsertPart(s.messages, group.tgId, stream, Whole(n, batch), n);
  }

  // ---------------- calls that raise ----------------

  /** The first call of a full batch's flush that raises: the insert, the account state, the cursor or the
      throttle after it. */
  datatype Fault = InsertFails | StateFails | CursorFails | ThrottleFails

  /** The call after the loop that raises. */
  datatype EndFault = NoEndFault | LastInsertFails | LinksFail

  function FlushedUpTo(s: Saved, group: int, batch: seq<Msg>, lastMsgId: int, fault: Option<Fault>): Saved {
    var flushed := Flushed(s, group, batch, lastMsgId);
    match fault
    case Some(InsertFails) => s
    case Some(StateFails) => s.(messages := flushed.messages)
    case Some(CursorFails) => flushed.(cursors := s.cursors)
    case _ => flushed
  }

  function LastOr(start: Option<int>, ms: seq<Msg>): int {
    var last := LastId(start, ms);
    if last.Some? then last.value else 0
  }

  /** What is saved when the flush that message n triggers raises. */
  function Cut(s: Saved, group: GroupRef, stream: seq<Msg>, n: nat, batch: int, fault: Option<Fault>): Saved
    requires 0 < n <= |stream|
  {
    FlushedUpTo(After(s, group, stream, n - 1, batch), group.tgId, stream[Whole(n - 1, batch)..n],
                LastOr(group.lastScanned, stream[..n]), fault)
  }

  /** How a scan ends. */
  datatype End = CutAt(n: nat) | StreamBreaks | LastBatchLost | LinksLost | Complete

  function EndOf(stream: seq<Msg>, broken: bool, faults: nat -> Option<Fault>, endFault: EndFault, batch: int,
      limit: int): End
  {
    var n := Taken(stream, limit);
    var first := FirstFault(faults, n, batch);
    if first.Some? then CutAt(first.value)
    else if broken && |stream| <= Max(limit, 0) then StreamBreaks
    else if endFault.LastInsertFails? && Whole(n, batch) < n then LastBatchLost
    else if endFault.LinksFail? && LinksOf(stream[..n]) != {} then LinksLost
    else Complete
  }

  /** What a scan of n messages leaves, by how it ends. */
  function Left(s: Saved, group: GroupRef, stream: seq<Msg>, n: nat, batch: int, end: End, faults: nat -> Option<Fault>,
      found: seq<string>): Saved
    requires n <= |stream| && (end.CutAt? ==> 0 < end.n <= n)
  {
    match end
    case CutAt(m) => Cut(s, group, stream, m, batch, faults(m))
    case StreamBreaks => After(s, group, stream, n, batch)
    case LastBatchLost => After(s, group, stream, n, batch)
    case LinksLost => After(s, group, stream, n, batch).(messages := InsertAll(s.messages, group.tgId, stream[..n]),
                                                         rt := Bumped(s.rt, MessagesToday, n))
    case Complete => Finished(s, group, stream, n, batch, found)
  }

  lemma {:induction false} CutMessages(s: Saved, group: GroupRef, stream: seq<Msg>, n: nat, batch: int,
      fault: Option<Fault>)
      returns (w: nat)
    requires 0 < n <= |stream| && Whole(n, batch) == n
    ensures w <= n && Whole(w, batch) == w
    ensures Cut(s, group, stream, n, batch, fault).messages == InsertAll(s.messages, group.tgId, stream[..w])
    ensures w == if fault == Some(InsertFails) then Whole(n - 1, batch) else n
  {
    var done := Whole(n - 1, batch);
    WholeOfWhole(n - 1, batch);
    InsertPart(s.messages, group.tgId, stream, done, n);
    w := if fault == Some(InsertFails) then done else n;
  }

  lemma {:induction false} CutCursors(s: Saved, group: GroupRef, stream: seq<Msg>, n: nat, batch: int,
      fault: Option<Fault>)
      returns (c: nat)
    requires 0 < n <= |stream| && Whole(n, batch) == n
    ensures c <= n
    ensures Cut(s, group, stream, n, batch, fault).cursors == s.cursors + Cursors(group.lastScanned, stream, c, batch)
    ensures c == if fault.None? || fault == Some(ThrottleFails) then n else n - 1
  {
    LastIdGrows(group.lastScanned, stream, n, n);
    CursorAdded(s.cursors, group.lastScanned, stream, n - 1, batch);
    c := if fault.None? || fault == Some(ThrottleFails) then n else n - 1;
  }

  /** However a scan ends, it has stored a prefix of what it read, and a rerun completes it. Cut off before
      the last batch, it has stored whole batches only; cut off at all, it has inserted no link and
      counted no group. The cursors it wrote are those of a prefix, so CursorsGrow orders them. */
  lemma {:induction false} CutOffScan(s: Saved, group: GroupRef, stream: seq<Msg>, n: nat, batch: int, end: End,
      faults: nat -> Option<Fault>, found: seq<string>) returns (w: nat, c: nat)
    requires n <= |stream| && (end.CutAt? ==> 0 < end.n <= n && Whole(end.n, batch) == end.n)
    ensures w <= n && c <= n
    ensures var left := Left(s, group, stream, n, batch, end, faults, found);
            && left.messages == InsertAll(s.messages, group.tgId, stream[..w])
            && InsertAll(left.messages, group.tgId, stream[..n]) == InsertAll(s.messages, group.tgId, stream[..n])
            && left.cursors == s.cursors + Cursors(group.lastScanned, stream, c, batch)
            && (!end.Complete? ==> left.db == s.db && left.rt.groupsToday == s.rt.groupsToday)
    ensures if end.Complete? || end.LinksLost? then w == n else Whole(w, batch) == w
    ensures end.StreamBreaks? || end.LastBatchLost? ==> w == Whole(n, batch) && c == n
    ensures end.CutAt? ==> w == if faults(end.n) == Some(InsertFails) then Whole(end.n - 1, batch) else end.n
    ensures end.CutAt? ==> c == if faults(end.n).None? || faults(end.n) == Some(ThrottleFails) then end.n else end.n - 1
    ensures end.Complete? || end.LinksLost? ==> c == n
  {
    if end.CutAt? {
      w := CutMessages(s, group, stream, end.n, batch, faults(end.n));
      c := CutCursors(s, group, stream, end.n, batch, faults(end.n));
    } else {
      WholeOfWhole(n, batch);
      w := if end.Complete? || end.LinksLost? then n else Whole(n, batch);
      c := n;
    }
    assert stream[..n][..w] == stream[..w];
    RescanCompletes(s.messages, group.tgId, stream[..n], w);
  }

  /** found names each link once, in any order. */
  ghost predicate Lists(found: seq<string>, links: set<string>) {
    |found| == |links| && forall u :: u in found <==> u in links
  }

  lemma {:induction false} InsertKeepsScans(s: Crawl.State, scans: map<nat, Crawl.Scan>, found: seq<string>,
      source: nat, depth: int)
    ensures Crawl.InsertLinks(s.(scans := scans), found, source, depth) ==
            Crawl.InsertLinks(s, found, source, depth).(scans := scans)
    decreases |found|
  {
    if found != [] {
      InsertKeepsScans(s, scans, found[..|found| - 1], source, depth);
    }
  }

  /** The links a finished scan inserts, and the end of that scan, are one step of the crawl. */
  lemma {:induction false} ScanIsCrawlStep(maxDepth: int, s: Crawl.State, k: nat, found: seq<string>)
    requires k in s.scans
    ensures Crawl.Enabled(maxDepth, s, Crawl.FinishScan(k, found))
    ensures Crawl.Apply(maxDepth, s, Crawl.FinishScan(k, found)) ==
            Crawl.InsertLinks(s, found, s.scans[k].row, s.scans[k].depth + 1).(scans := s.scans - {k})
  {
    InsertKeepsScans(s, s.scans - {k}, found, s.scans[k].row, s.scans[k].depth + 1);
  }

  lemma {:induction false} AfterFull(s: Saved, group: GroupRef, stream: seq<Msg>, n: nat, batch: int)
    requires n < |stream| && n + 1 - Whole(n, batch) >= batch && LastId(group.lastScanned, stream[..n + 1]).Some?
    ensures After(s, group, stream, n + 1, batch) ==
            Flushed(After(s, group, stream, n, batch), group.tgId, stream[Whole(n, batch)..n + 1],
                    LastId(group.lastScanned, stream[..n + 1]).value)
  {
    var done := Whole(n, batch);
    assert Whole(n + 1, batch) == n + 1 && |stream[done..n + 1]| == n + 1 - done;
    InsertPart(s.messages, group.tgId, stream, done, n + 1);
    CursorAdded(s.cursors, group.lastScanned, stream, n, batch);
  }

  lemma {:induction false} CursorAdded(cursors: seq<int>, start: Option<int>, stream: seq<Msg>, n: nat, batch: int)
    requires n < |stream| && Whole(n + 1, batch) == n + 1 && LastId(start, stream[..n + 1]).Some?
    ensures cursors + Cursors(start, stream, n + 1, batch) ==
            (cursors + Cursors(start, stream, n, batch)) + [LastId(start, stream[..n + 1]).value]
  {
    Associate(cursors, Cursors(start, stream, n, batch), [LastId(start, stream[..n + 1]).value]);
  }

  lemma {:induction false} AfterMore(s: Saved, group: GroupRef, stream: seq<Msg>, n: nat, batch: int)
    requires n < |stream| && n + 1 - Whole(n, batch) < batch
    ensures After(s, group, stream, n + 1, batch) == After(s, group, stream, n, batch)
  {
    Associate(s.cursors, Cursors(group.lastScanned, stream, n, batch), []);
  }

  /** One message more joins the batch, or completes it. */
  lemma {:induction false} AfterNext(s: Saved, group: GroupRef, stream: seq<Msg>, n: nat, batch: int)
    requires n < |stream|
    ensures LastId(group.lastScanned, stream[..n + 1]).Some?
    ensures var done := Whole(n, batch);
            After(s, group, stream, n + 1, batch) ==
            if n + 1 - done >= batch
            then Flushed(After(s, group, stream, n, batch), group.tgId, stream[done..n + 1],
                         LastId(group.lastScanned, stream[..n + 1]).value)
            else After(s, group, stream, n, batch)
  {
    LastIdGrows(group.lastScanned, stream, n + 1, n + 1);
    if n + 1 - Whole(n, batch) >= batch {
      AfterFull(s, group, stream, n, batch);
    } else {
      AfterMore(s, group, stream, n, batch);
    }
  }

  lemma {:induction false} LastIdStep(start: Option<int>, stream: seq<Msg>, i: nat)
    requires i < |stream|
    ensures var before := LastId(start, stream[..i]);
            LastId(start, stream[..i + 1]) == Some(Max(if before.Some? then before.value else 0, stream[i].id))
  {
    assert stream[..i + 1][..i] == stream[..i];
  }

  lemma {:induction false} LinksOfStep(stream: seq<Msg>, i: nat)
    requires i < |stream|
    ensures LinksOf(stream[..i + 1]) == LinksOf(stream[..i]) + stream[i].links
  {
    var a, b := stream[..i], stream[..i + 1];
    forall u
      ensures u in LinksOf(b) <==> u in LinksOf(a) || u in stream[i].links
    {
      if u in LinksOf(a) {
        var j :| 0 <= j < |a| && u in a[j].links;
        assert b[j] == a[j];
      }
      if u in LinksOf(b) {
        var j :| 0 <= j < |b| && u in b[j].links;
        if j < i {
          assert a[j] == b[j];
        }
      }
      if u in stream[i].links {
        assert b[i] == stream[i];
      }
    }
  }

  // ---------------- what is stored and counted, spelled out ----------------

  /** A stored row: the first 10000 characters of the text, and the rest as it was streamed. */
  lemma {:induction false} StoredRow(m: Msg)
    ensures var row := RowOf(m);
            && row.text <= m.text && |row.text| <= 10000 && (|m.text| <= 10000 ==> row.text == m.text)
            && (|m.text| > 10000 ==> |row.text| == 10000)
            && row.date == m.date && row.sender == m.sender && row.keywords == m.keywords
            && (row.hasLinks <==> exists u :: u in m.links)
  {
    if m.links != {} {
      var u :| u in m.links;
    }
  }

  /** The cursor is the largest id seen, counted from the stored cursor, or from 0 without one. */
  lemma {:induction false} LastIdIsMax(start: Option<int>, ms: seq<Msg>)
    requires ms != []
    ensures var base := if start.Some? then start.value else 0;
            && LastId(start, ms).Some? && LastId(start, ms).value >= base
            && (forall i :: 0 <= i < |ms| ==> ms[i].id <= LastId(start, ms).value)
            && (LastId(start, ms).value == base || exists i :: 0 <= i < |ms| && ms[i].id == LastId(start, ms).value)
    decreases |ms|
  {
    var n := |ms| - 1;
    if n > 0 {
      LastIdIsMax(start, ms[..n]);
    }
  }

  lemma {:induction false} CursorCount(start: Option<int>, ms: seq<Msg>, n: nat, batch: nat)
    requires n <= |ms| && batch > 0
    ensures |Cursors(start, ms, n, batch)| * batch == Whole(n, batch) && n - Whole(n, batch) < batch
  {
    if n > 0 {
      CursorCount(start, ms, n - 1, batch);
      var k := |Cursors(start, ms, n - 1, batch)|;
      assert (k + 1) * batch == k * batch + batch;
    }
  }

  /** One cursor is persisted per full batch: the largest id up to its end. */
  lemma {:induction false} CursorAt(start: Option<int>, ms: seq<Msg>, n: nat, batch: nat, j: nat)
    requires n <= |ms| && batch > 0 && j < |Cursors(start, ms, n, batch)|
    ensures (j + 1) * batch <= n
    ensures Some(Cursors(start, ms, n, batch)[j]) == LastId(start, ms[..(j + 1) * batch])
  {
    var before := Cursors(start, ms, n - 1, batch);
    if j < |before| {
      CursorAt(start, ms, n - 1, batch, j);
    } else {
      CursorCount(start, ms, n, batch);
      LastIdGrows(start, ms, n, n);
    }
  }

  /** How the scan ends: complete only if no call raised that was made; and the first that raises decides. */
  lemma {:induction false} EndIs(stream: seq<Msg>, broken: bool, faults: nat -> Option<Fault>, endFault: EndFault,
      batch: int, limit: int)
    ensures var n := if limit < 0 then 0 else if |stream| < limit then |stream| else limit;
            var end := EndOf(stream, broken, faults, endFault, batch, limit);
            var flushRaises := exists k: nat :: 0 < k <= n && Whole(k, batch) == k && faults(k).Some?;
            && Taken(stream, limit) == n
            && (end.CutAt? <==> flushRaises)
            && (end.CutAt? ==> 0 < end.n <= n && Whole(end.n, batch) == end.n && faults(end.n).Some?
                               && forall k: nat :: 0 < k < end.n && Whole(k, batch) == k ==> faults(k).None?)
            && (end.StreamBreaks? <==> !flushRaises && broken && (|stream| < limit || n == |stream|))
            && (end.LastBatchLost? ==> endFault.LastInsertFails? && Whole(n, batch) < n)
            && (end.LinksLost? ==> endFault.LinksFail? && exists i, u :: 0 <= i < n && u in stream[i].links)
            && (end.Complete? ==>
                  && (endFault.LastInsertFails? ==> Whole(n, batch) == n)
                  && (endFault.LinksFail? ==> forall i :: 0 <= i < n ==> stream[i].links == {}))
  {
    var n := Taken(stream, limit);
    var end := EndOf(stream, broken, faults, endFault, batch, limit);
    FirstFaultIs(faults, n, batch, if end.CutAt? then end.n else 0);
    LinksSeen(stream, n);
  }

  lemma {:induction false} LinkSeen(stream: seq<Msg>, n: nat, u: string)
    requires n <= |stream|
    ensures u in LinksOf(stream[..n]) <==> exists i :: 0 <= i < n && u in stream[i].links
  {
    if i :| 0 <= i < n && u in stream[i].links {
      assert u in stream[..n][i].links;
    }
    if u in LinksOf(stream[..n]) {
      var i :| 0 <= i < |stream[..n]| && u in stream[..n][i].links;
      assert u in stream[i].links;
    }
  }

  lemma {:induction false} LinksSeen(stream: seq<Msg>, n: nat)
    requires n <= |stream|
    ensures LinksOf(stream[..n]) != {} <==> exists i, u :: 0 <= i < n && u in stream[i].links
  {
    if i, u :| 0 <= i < n && u in stream[i].links {
      LinkSeen(stream, n, u);
    }
    if LinksOf(stream[..n]) != {} {
      var u :| u in LinksOf(stream[..n]);
      LinkSeen(stream, n, u);
    }
  }

  /** How many messages are counted when the scan ends: those stored in flushes that got as far as the count. */
  function Counted(n: nat, batch: int, end: End, faults: nat -> Option<Fault>): nat {
    match end
    case CutAt(m) =>
      if m > 0 && (faults(m) == Some(InsertFails) || faults(m) == Some(StateFails)) then Whole(m - 1, batch) else m
    case StreamBreaks => Whole(n, batch)
    case LastBatchLost => Whole(n, batch)
    case _ => n
  }

  lemma {:induction false} CutCounts(s: Saved, group: GroupRef, stream: seq<Msg>, m: nat, batch: int,
      fault: Option<Fault>)
    requires 0 < m <= |stream| && Whole(m, batch) == m
    ensures var counted := if fault == Some(InsertFails) || fault == Some(StateFails) then Whole(m - 1, batch) else m;
            Cut(s, group, stream, m, batch, fault).rt == s.rt.(messagesToday := s.rt.messagesToday + counted)
  {
    assert |stream[Whole(m - 1, batch)..m]| == m - Whole(m - 1, batch);
  }

  /** The counters a scan leaves: the group counts only when the scan completes, and nothing else moves. */
  lemma {:induction false} CountsAre(s: Saved, group: GroupRef, stream: seq<Msg>, n: nat, batch: int, end: End,
      faults: nat -> Option<Fault>, found: seq<string>)
    requires n <= |stream| && (end.CutAt? ==> 0 < end.n <= n && Whole(end.n, batch) == end.n)
    ensures var groups := if end.Complete? then 1 else 0;
            Left(s, group, stream, n, batch, end, faults, found).rt ==
            s.rt.(messagesToday := s.rt.messagesToday + Counted(n, batch, end, faults),
                  groupsToday := s.rt.groupsToday + groups, groupsHour := s.rt.groupsHour + groups)
  {
    if end.CutAt? {
      CutCounts(s, group, stream, end.n, batch, faults(end.n));
    }
  }

  /** The count mirrored into the account's row is that of the last flush that reached the mirror. */
  lemma {:induction false} MirroredCount(s: Saved, group: GroupRef, stream: seq<Msg>, n: nat, batch: int, end: End,
      faults: nat -> Option<Fault>, found: seq<string>)
    requires n <= |stream| && (end.CutAt? ==> 0 < end.n <= n && Whole(end.n, batch) == end.n && faults(end.n).Some?)
    ensures var whole := if !end.CutAt? then Whole(n, batch)
                         else if faults(end.n) == Some(InsertFails) || faults(end.n) == Some(StateFails)
                         then Whole(end.n - 1, batch) else end.n;
            Left(s, group, stream, n, batch, end, faults, found).storedToday ==
            if whole == 0 then s.storedToday else s.rt.messagesToday + whole
  {
    if end.CutAt? {
      assert |stream[Whole(end.n - 1, batch)..end.n]| == end.n - Whole(end.n - 1, batch);
    }
  }

  /** The links of a complete scan: each is stored one deeper than the group, from the group's row, unless the
      name was stored before. */
  lemma {:induction false} LinksAreStored(s: Saved, group: GroupRef, stream: seq<Msg>, n: nat, batch: int,
      found: seq<string>, u: string)
    requires n <= |stream| && Lists(found, LinksOf(stream[..n]))
    ensures var db := Finished(s, group, stream, n, batch, found).db;
            && (u in db.links <==> u in s.db.links || exists i :: 0 <= i < n && u in stream[i].links)
            && (u in s.db.links ==> db.links[u] == s.db.links[u])
            && (u in db.links && u !in s.db.links ==>
                  db.links[u].source == group.row && db.links[u].depth == group.depth + 1 && !db.links[u].resolved)
  {
    Crawl.InsertLinksFrame(s.db, found, group.row, group.depth + 1);
    LinkSeen(stream, n, u);
  }

  class Scanner {
    var messages: Table
    const crawler: Discovery.Crawler  // the group and link tables
    var rt: Runtime               // the account's counters
    var storedToday: int          // account_states.messages_today
    var cursors: seq<int>         // every last_scanned_msg_id written to the group's row

    constructor (crawler: Discovery.Crawler, rt: Runtime)
      ensures messages == map[] && this.crawler == crawler && this.rt == rt && cursors == []
    {
      messages, cursors := map[], [];
      this.crawler := crawler;
      this.rt := rt;
      storedToday := rt.messagesToday;
    }

    method BulkInsertMessages(group: int, batch: seq<Msg>)
      modifies this`messages
      ensures messages == InsertAll(old(messages), group, batch)
    {
      ghost var t := messages;
      ghost var rows := RowsOf(group, batch);
      for i := 0 to |batch|
        invariant messages == InsertAbsent(t, rows[..i])
      {
        assert rows[..i + 1][..i] == rows[..i];
        if (group, batch[i].id) !in messages {
          messages := messages[(group, batch[i].id) := RowOf(batch[i])];
        }
      }
      assert rows[..|rows|] == rows;
    }

    ghost function Now(): Saved
      reads this, crawler
    {
      Saved(messages, crawler.db, rt, storedToday, cursors)
    }

    /** The flush of a full batch, up to the call that raises. */
    method FlushFull(group: int, batch: seq<Msg>, lastMsgId: int, fault: Option<Fault>) returns (raised: bool)
      modifies this
      ensures Now() == FlushedUpTo(old(Now()), group, batch, lastMsgId, fault)
      ensures raised <==> fault.Some?
    {
      if fault == Some(InsertFails) {
        return true;
      }
      BulkInsertMessages(group, batch);
      if fault == Some(StateFails) {
        return true;
      }
      storedToday := rt.messagesToday + |batch|;
      rt := rt.(messagesToday := rt.messagesToday + |batch|);
      if fault == Some(CursorFails) {
        return true;
      }
      cursors := cursors + [lastMsgId];
      return fault.Some?;
    }

    /** After total messages: whole batches saved, the rest batched, links and cursor collected. */
    static ghost predicate Consuming(now: Saved, s0: Saved, group: GroupRef, stream: seq<Msg>, total: nat,
                                     batch: seq<Msg>, links: set<string>, lastMsgId: Option<int>, batchSize: int)
    {
      && total <= |stream|
      && batch == stream[Whole(total, batchSize)..total]
      && links == LinksOf(stream[..total])
      && lastMsgId == LastId(group.lastScanned, stream[..total])
      && now == After(s0, group, stream, total, batchSize)
    }

    /** What message total adds to the batch, the links and the cursor. */
    static lemma {:induction false} Joined(group: GroupRef, stream: seq<Msg>, total: nat, done: nat)
      requires done <= total < |stream|
      ensures stream[done..total] + [stream[total]] == stream[done..total + 1]
      ensures LinksOf(stream[..total]) + stream[total].links == LinksOf(stream[..total + 1])
      ensures var last := LastId(group.lastScanned, stream[..total]);
              LastId(group.lastScanned, stream[..total + 1]) ==
              Some(Max(if last.Some? then last.value else 0, stream[total].id))
    {
      LinksOfStep(stream, total);
      LastIdStep(group.lastScanned, stream, total);
    }

    /** One turn of the loop; `fault` is what the flush meets if this message completes a batch. */
    method Take(group: GroupRef, msg: Msg, ghost stream: seq<Msg>, ghost total: nat, batch0: seq<Msg>,
        links0: set<string>, last0: Option<int>, batchSize: int, fault: Option<Fault>, ghost s0: Saved)
        returns (batch: seq<Msg>, links: set<string>, lastMsgId: Option<int>, raised: bool)
      requires total < |stream| && msg == stream[total]
      requires Consuming(Now(), s0, group, stream, total, batch0, links0, last0, batchSize)
      modifies this
      ensures raised <==> Whole(total + 1, batchSize) == total + 1 && fault.Some?
      ensures !raised ==> Consuming(Now(), s0, group, stream, total + 1, batch, links, lastMsgId, batchSize)
      ensures raised ==> Now() == Cut(s0, group, stream, total + 1, batchSize, fault)
    {
      Joined(group, stream, total, Whole(total, batchSize));
      links := links0 + msg.links;
      batch := batch0 + [msg];
      lastMsgId := Some(Max(if last0.Some? then last0.value else 0, msg.id));
      batch, raised := FlushIfFull(group, batch, lastMsgId.value, stream, total, batchSize, fault, s0);
    }

    /** A batch that the last message has filled is flushed and cleared. */
    method FlushIfFull(group: GroupRef, batch: seq<Msg>, lastMsgId: int, ghost stream: seq<Msg>, ghost total: nat,
        batchSize: int, fault: Option<Fault>, ghost s0: Saved) returns (rest: seq<Msg>, raised: bool)
      requires total < |stream| && batch == stream[Whole(total, batchSize)..total + 1]
      requires lastMsgId == LastOr(group.lastScanned, stream[..total + 1])
      requires Now() == After(s0, group, stream, total, batchSize)
      modifies this
      ensures raised <==> Whole(total + 1, batchSize) == total + 1 && fault.Some?
      ensures raised ==> Now() == Cut(s0, group, stream, total + 1, batchSize, fault)
      ensures !raised ==> Now() == After(s0, group, stream, total + 1, batchSize)
      ensures !raised ==> rest == stream[Whole(total + 1, batchSize)..total + 1]
    {
      rest, raised := batch, false;
      if |batch| >= batchSize {
        CutOrAfter(s0, group, stream, total, batchSize, fault);
        raised := FlushFull(group.tgId, batch, lastMsgId, fault);
        rest := [];
      } else {
        AfterMore(s0, group, stream, total, batchSize);
      }
    }

    /** A full batch: its flush leaves the cut-off state if a call raises, and the next one otherwise. */
    static lemma {:induction false} CutOrAfter(s: Saved, group: GroupRef, stream: seq<Msg>, total: nat, batchSize: int,
        fault: Option<Fault>)
      requires total < |stream| && total + 1 - Whole(total, batchSize) >= batchSize
      ensures Whole(total + 1, batchSize) == total + 1 && stream[total + 1..total + 1] == []
      ensures var flushed := FlushedUpTo(After(s, group, stream, total, batchSize), group.tgId,
                                         stream[Whole(total, batchSize)..total + 1],
                                         LastOr(group.lastScanned, stream[..total + 1]), fault);
              && Cut(s, group, stream, total + 1, batchSize, fault) == flushed
              && (fault.None? ==> After(s, group, stream, total + 1, batchSize) == flushed)
    {
      if fault.None? {
        FlushedIsAfter(s, group, stream, total, batchSize);
      }
    }

    static lemma {:induction false} FlushedIsAfter(s: Saved, group: GroupRef, stream: seq<Msg>, total: nat,
        batchSize: int)
      requires total < |stream| && total + 1 - Whole(total, batchSize) >= batchSize
      ensures After(s, group, stream, total + 1, batchSize) ==
              Flushed(After(s, group, stream, total, batchSize), group.tgId, stream[Whole(total, batchSize)..total + 1],
                      LastOr(group.lastScanned, stream[..total + 1]))
    {
      LastIdGrows(group.lastScanned, stream, total + 1, total + 1);
      AfterFull(s, group, stream, total, batchSize);
    }

    /** The loop of parse_history: stops at the limit, at the end of the stream or at a call that raises. */
    method Consume(group: GroupRef, stream: seq<Msg>, faults: nat -> Option<Fault>, batchSize: int, limit: int)
        returns (total: nat, batch: seq<Msg>, links: set<string>, lastMsgId: Option<int>, raised: bool)
      modifies this
      ensures var n := Taken(stream, limit);
              var first := FirstFault(faults, n, batchSize);
              && raised == first.Some?
              && (raised ==> Now() == Cut(old(Now()), group, stream, first.value, batchSize, faults(first.value)))
              && (!raised ==>
                    total == n && Consuming(Now(), old(Now()), group, stream, n, batch, links, lastMsgId, batchSize))
    {
      ghost var s0 := Now();
      batch, links, total, lastMsgId, raised := [], {}, 0, group.lastScanned, false;
      Start(s0, group, stream, batchSize);
      while total < |stream|
        invariant total <= |stream| && total <= Max(limit, 0)
        invariant FirstFault(faults, total, batchSize).None?
        invariant Consuming(Now(), s0, group, stream, total, batch, links, lastMsgId, batchSize)
      {
        if total >= limit {
          break;
        }
        batch, links, lastMsgId, raised :=
          Take(group, stream[total], stream, total, batch, links, lastMsgId, batchSize, faults(total + 1), s0);
        total := total + 1;
        if raised {
          FirstFaultStays(faults, total, Taken(stream, limit), batchSize);
          return;
        }
      }
    }

    static lemma {:induction false} Start(s0: Saved, group: GroupRef, stream: seq<Msg>, batchSize: int)
      ensures Consuming(s0, s0, group, stream, 0, [], {}, group.lastScanned, batchSize)
    {
    }

    /** After the loop: the last, short batch, the links and the group count, up to the call that raises. */
    method Wrap(group: GroupRef, batch: seq<Msg>, links: set<string>, endFault: EndFault)
        returns (raised: bool, ghost found: seq<string>)
      modifies this, crawler
      ensures Lists(found, links)
      ensures raised <==> (batch != [] && endFault.LastInsertFails?) || (links != {} && endFault.LinksFail?)
      ensures Now() ==
              if !raised then Wrapped(old(Now()), group, batch, found)
              else if endFault.LastInsertFails? then old(Now())
              else old(Now()).(messages := InsertAll(old(messages), group.tgId, batch),
                               rt := Bumped(old(rt), MessagesToday, |batch|))
    {
      var rows := LinkRows(links);
      found := rows;
      if batch != [] {
        if endFault.LastInsertFails? {
          return true, found;
        }
        BulkInsertMessages(group.tgId, batch);
        rt := rt.(messagesToday := rt.messagesToday + |batch|);
      }
      if rows != [] {
        if endFault.LinksFail? {
          return true, found;
        }
        var inserted := crawler.BulkInsertLinks(rows, group.row, group.depth + 1);
      }
      rt := rt.(groupsToday := rt.groupsToday + 1, groupsHour := rt.groupsHour + 1);
      raised := false;
    }

    static method LinkRows(links: set<string>) returns (rows: seq<string>)
      ensures Lists(rows, links)
    {
      rows := [];
      var left := links;
      while left != {}
        invariant left <= links && |rows| + |left| == |links|
        invariant forall u :: u in rows <==> u in links && u !in left
        decreases left
      {
        var u :| u in left;
        rows, left := rows + [u], left - {u};
      }
    }

    /** parse_history after the chat lookup. The stream ends, or with `broken` raises, after its last message;
        `faults` and `endFault` say which call raises if the scan makes it. */
    method ParseHistory(group: GroupRef, stream: seq<Msg>, broken: bool, faults: nat -> Option<Fault>,
        endFault: EndFault, batchSize: int, limit: int)
        returns (r: Result<HistoryResult, ScanError>, ghost found: seq<string>)
      modifies this, crawler
      ensures var n := Taken(stream, limit);
              var end := EndOf(stream, broken, faults, endFault, batchSize, limit);
              && Now() == Left(old(Now()), group, stream, n, batchSize, end, faults, found)
              && r == match end
                      case StreamBreaks => Err(StreamBroke)
                      case Complete => Ok(HistoryResult(group.tgId, n, |LinksOf(stream[..n])|,
                                                        LastId(group.lastScanned, stream[..n])))
                      case _ => Err(CallFailed)
      ensures r.Ok? ==> Lists(found, LinksOf(stream[..Taken(stream, limit)]))
    {
      ghost var s0 := Now();
      var total, batch, links, lastMsgId, raised := Consume(group, stream, faults, batchSize, limit);
      if raised {
        return Err(CallFailed), [];
      }
      if total == |stream| && broken {
        return Err(StreamBroke), [];
      }
      WrapEnds(s0, group, stream, total, batchSize);
      var lost, rows := Wrap(group, batch, links, endFault);
      found := rows;
      WrappedIsFinished(s0, group, stream, total, batchSize, found);
      r := if lost then Err(CallFailed) else Ok(HistoryResult(group.tgId, total, |links|, lastMsgId));
    }

    /** Storing the last batch makes the messages whole. */
    static lemma {:induction false} WrapEnds(s: Saved, group: GroupRef, stream: seq<Msg>, n: nat, batch: int)
      requires n <= |stream|
      ensures var rest := stream[Whole(n, batch)..n];
              && (rest == [] <==> Whole(n, batch) == n)
              && InsertAll(After(s, group, stream, n, batch).messages, group.tgId, rest) ==
                 InsertAll(s.messages, group.tgId, stream[..n])
              && Bumped(After(s, group, stream, n, batch).rt, MessagesToday, |rest|) == Bumped(s.rt, MessagesToday, n)
    {
      InsertPart(s.messages, group.tgId, stream, Whole(n, batch), n);
    }
  }
}
