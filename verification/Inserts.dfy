/** INSERT ... ON CONFLICT DO NOTHING, row by row, as a function of the table. */
module Inserts {
  import opened Base

  function InsertAbsent<K(==), V>(t: map<K, V>, rows: seq<(K, V)>): map<K, V>
    decreases |rows|
  {
    if rows == [] then t
    else
      var before := InsertAbsent(t, rows[..|rows| - 1]);
      var (k, v) := rows[|rows| - 1];
      if k in before then before else before[k := v]
  }

  /** The row first offered for a key. */
  function First<K(==), V>(rows: seq<(K, V)>, k: K): (first: Option<V>)
    ensures first.None? <==> forall r :: r in rows ==> r.0 != k
    ensures first.Some? ==> (k, first.value) in rows
    decreases |rows|
  {
    if rows == [] then None
    else
      var n := |rows| - 1;
      assert rows == rows[..n] + [rows[n]];
      var before := First(rows[..n], k);
      if before.Some? then before else if rows[n].0 == k then Some(rows[n].1) else None
  }

  lemma {:induction false} InsertConcat<K, V>(t: map<K, V>, a: seq<(K, V)>, b: seq<(K, V)>)
    ensures InsertAbsent(InsertAbsent(t, a), b) == InsertAbsent(t, a + b)
    decreases |b|
  {
    if b == [] {
      assert a + b == a;
    } else {
      assert (a + b)[..|a + b| - 1] == a + b[..|b| - 1];
      InsertConcat(t, a, b[..|b| - 1]);
    }
  }

  lemma {:induction false} InsertSlice<K, V>(t: map<K, V>, rows: seq<(K, V)>, i: nat, j: nat)
    requires i <= j <= |rows|
    ensures InsertAbsent(InsertAbsent(t, rows[..i]), rows[i..j]) == InsertAbsent(t, rows[..j])
  {
    assert rows[..i] + rows[i..j] == rows[..j];
    InsertConcat(t, rows[..i], rows[i..j]);
  }

  lemma {:induction false} InsertAt<K, V>(t: map<K, V>, rows: seq<(K, V)>, k: K)
    ensures var t' := InsertAbsent(t, rows);
            && (k in t' <==> k in t || First(rows, k).Some?)
            && (k in t' ==> t'[k] == if k in t then t[k] else First(rows, k).value)
    decreases |rows|
  {
    if rows != [] {
      InsertAt(t, rows[..|rows| - 1], k);
    }
  }

  function RowKeys<K(==), V>(rows: seq<(K, V)>): set<K> {
    set i | 0 <= i < |rows| :: rows[i].0
  }

  lemma {:induction false} KeysUnion<K, V>(t: map<K, V>, rows: seq<(K, V)>)
    ensures InsertAbsent(t, rows).Keys == t.Keys + RowKeys(rows)
    decreases |rows|
  {
    if rows != [] {
      var init, last := rows[..|rows| - 1], rows[|rows| - 1];
      KeysUnion(t, init);
      assert RowKeys(rows) == RowKeys(init) + {last.0} by {
        assert rows == init + [last];
        assert forall i :: 0 <= i < |init| ==> init[i].0 == rows[i].0;
      }
    }
  }

  /** The inserts are one union: old rows stay as they are, and each new key gets the row first
      offered for it. */
  lemma {:induction false} InsertIsUnion<K, V>(t: map<K, V>, rows: seq<(K, V)>)
    ensures InsertAbsent(t, rows).Keys == t.Keys + RowKeys(rows)
    ensures forall k :: k in t ==> InsertAbsent(t, rows)[k] == t[k]
    ensures forall k :: k in InsertAbsent(t, rows) && k !in t ==>
              First(rows, k).Some? && InsertAbsent(t, rows)[k] == First(rows, k).value
  {
    KeysUnion(t, rows);
    forall k
      ensures k in InsertAbsent(t, rows) <==> k in t || First(rows, k).Some?
      ensures k in InsertAbsent(t, rows) ==>
                InsertAbsent(t, rows)[k] == if k in t then t[k] else First(rows, k).value
    {
      InsertAt(t, rows, k);
    }
  }

  /** The first row with its key is the one kept. */
  lemma {:induction false} FirstAt<K, V>(rows: seq<(K, V)>, i: nat)
    requires i < |rows| && forall j :: 0 <= j < i ==> rows[j].0 != rows[i].0
    ensures First(rows, rows[i].0) == Some(rows[i].1)
    decreases |rows|
  {
    var n := |rows| - 1;
    if i < n {
      FirstAt(rows[..n], i);
    } else {
      assert forall r :: r in rows[..n] ==> r.0 != rows[i].0;
    }
  }

  /** Offering only rows whose keys are stored changes nothing. */
  lemma {:induction false} InsertKnown<K, V>(t: map<K, V>, rows: seq<(K, V)>)
    requires forall r :: r in rows ==> r.0 in t
    ensures InsertAbsent(t, rows) == t
    decreases |rows|
  {
    if rows != [] {
      InsertKnown(t, rows[..|rows| - 1]);
    }
  }

  /** Inserting rows of which a prefix was already inserted ends where inserting them once ends. */
  lemma {:induction false} RerunCompletes<K, V>(t: map<K, V>, rows: seq<(K, V)>, cut: nat)
    requires cut <= |rows|
    ensures InsertAbsent(InsertAbsent(t, rows[..cut]), rows) == InsertAbsent(t, rows)
  {
    var part := InsertAbsent(t, rows[..cut]);
    InsertIsUnion(t, rows[..cut]);
    forall r | r in rows[..cut]
      ensures r.0 in part
    {
      assert r.0 in part.Keys;
    }
    InsertKnown(part, rows[..cut]);
    InsertSlice(part, rows, cut, |rows|);
    InsertSlice(t, rows, cut, |rows|);
    assert rows[..|rows|] == rows;
  }

  /** A scan ends early when its stream or one of its own calls raises. */
  datatype ScanError = StreamBroke | CallFailed

  // ---------------- batches ----------------

  /** How many of the first n rows have been flushed: a batch goes out when it is full. */
  function Whole(n: nat, batch: int): (whole: nat)
    ensures whole <= n && (n - whole < batch || n == whole)
  {
    if n == 0 then 0
    else if n - Whole(n - 1, batch) >= batch then n
    else Whole(n - 1, batch)
  }

  /** Flushed rows are the largest multiple of the batch size; a size below 1 acts as 1. */
  lemma {:induction false} WholeIsMultiple(n: nat, batch: int) returns (q: nat)
    ensures Whole(n, batch) == q * Max(batch, 1) && n - Whole(n, batch) < Max(batch, 1)
  {
    q := 0;
    if n > 0 {
      q := WholeIsMultiple(n - 1, batch);
      if Whole(n, batch) == n {
        assert (q + 1) * Max(batch, 1) == q * Max(batch, 1) + Max(batch, 1);
        q := q + 1;
      }
    }
  }

  lemma {:induction false} WholeOfWhole(n: nat, batch: int)
    ensures Whole(Whole(n, batch), batch) == Whole(n, batch)
  {
    if n > 0 {
      WholeOfWhole(n - 1, batch);
    }
  }

  // ---------------- flushes that raise ----------------

  /** The first of the first n rows whose flush raises; faults(m) is what the flush that row m triggers meets. */
  function FirstFault<F>(faults: nat -> Option<F>, n: nat, batch: int): (first: Option<nat>)
    ensures first.Some? ==>
              0 < first.value <= n && Whole(first.value, batch) == first.value && faults(first.value).Some?
  {
    if n == 0 then None
    else
      var before := FirstFault(faults, n - 1, batch);
      if before.Some? then before
      else if Whole(n, batch) == n && faults(n).Some? then Some(n) else None
  }

  lemma {:induction false} FirstFaultStays<F>(faults: nat -> Option<F>, m: nat, n: nat, batch: int)
    requires m <= n && FirstFault(faults, m, batch).Some?
    ensures FirstFault(faults, n, batch) == FirstFault(faults, m, batch)
  {
    if m < n {
      FirstFaultStays(faults, m, n - 1, batch);
    }
  }

  /** It is the least row that triggers a flush which raises. */
  lemma {:induction false} FirstFaultIs<F>(faults: nat -> Option<F>, n: nat, batch: int, m: nat)
    ensures FirstFault(faults, n, batch) == Some(m)
            <==> (&& 0 < m <= n && Whole(m, batch) == m && faults(m).Some?
                  && forall k: nat :: 0 < k < m && Whole(k, batch) == k ==> faults(k).None?)
    ensures FirstFault(faults, n, batch).None?
            <==> forall k: nat :: 0 < k <= n && Whole(k, batch) == k ==> faults(k).None?
  {
    if n > 0 {
      FirstFaultIs(faults, n - 1, batch, m);
      var before := FirstFault(faults, n - 1, batch);
      if before.Some? {
        FirstFaultIs(faults, n - 1, batch, before.value);
      }
    }
  }
}
