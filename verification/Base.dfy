/** Small shared vocabulary: optional values and per-key counters. */
module Base {

  datatype Option<+T> = None | Some(value: T)

  datatype Result<+T, +E> = Ok(value: T) | Err(error: E)

  /** A counter map: keys that were never touched count as zero. */
  type Counters = map<nat, nat>

  function At(c: Counters, id: nat): nat {
    if id in c then c[id] else 0
  }

  function Max(a: int, b: int): int {
    if a >= b then a else b
  }

  function Min(a: int, b: int): int {
    if a <= b then a else b
  }

  /** Python's white space, in full. */
  predicate IsSpace(c: char) {
    var n := c as int;
    || 0x09 <= n <= 0x0D || 0x1C <= n <= 0x20 || n == 0x85 || n == 0xA0 || n == 0x1680 || 0x2000 <= n <= 0x200A
    || n == 0x2028 || n == 0x2029 || n == 0x202F || n == 0x205F || n == 0x3000
  }

  function LStrip(s: string): string
    decreases |s|
  {
    if s != "" && IsSpace(s[0]) then LStrip(s[1..]) else s
  }

  function RStrip(s: string): string
    decreases |s|
  {
    if s != "" && IsSpace(s[|s| - 1]) then RStrip(s[..|s| - 1]) else s
  }

  /** Only white space surrounds s[i..j]. */
  ghost predicate Surrounded(s: string, i: int, j: int) {
    0 <= i <= j <= |s| && forall k :: 0 <= k < i || j <= k < |s| ==> IsSpace(s[k])
  }

  lemma {:induction false} LStripIs(s: string) returns (i: nat)
    ensures i <= |s| && LStrip(s) == s[i..] && (forall k :: 0 <= k < i ==> IsSpace(s[k]))
    ensures i < |s| ==> !IsSpace(s[i])
    decreases |s|
  {
    i := 0;
    if s != "" && IsSpace(s[0]) {
      i := LStripIs(s[1..]);
      i := i + 1;
    }
  }

  lemma {:induction false} RStripIs(s: string) returns (j: nat)
    ensures j <= |s| && RStrip(s) == s[..j] && (forall k :: j <= k < |s| ==> IsSpace(s[k]))
    ensures j > 0 ==> !IsSpace(s[j - 1])
    decreases |s|
  {
    j := |s|;
    if s != "" && IsSpace(s[|s| - 1]) {
      j := RStripIs(s[..|s| - 1]);
    }
  }

  /** str.strip: what is left is surrounded by white space only, and neither begins nor ends with any. */
  lemma {:induction false} StripIs(s: string) returns (i: nat, j: nat)
    ensures Surrounded(s, i, j) && RStrip(LStrip(s)) == s[i..j]
    ensures i < j ==> !IsSpace(s[i]) && !IsSpace(s[j - 1])
  {
    i := LStripIs(s);
    j := RStripIs(s[i..]);
    j := i + j;
  }

  /** There is one way to strip. */
  lemma {:induction false} StripIsUnique(s: string, i: int, j: int)
    requires Surrounded(s, i, j) && i < j && !IsSpace(s[i]) && !IsSpace(s[j - 1])
    ensures RStrip(LStrip(s)) == s[i..j]
  {
    var x, y := StripIs(s);
    assert x == i;
    assert y == j;
  }

  function Lower(c: char): char {
    if 'A' <= c <= 'Z' then 'a' + (c - 'A') else c
  }

  /** str.lower on ASCII letters. */
  function LowerAll(s: string): (lower: string)
    ensures |lower| == |s|
  {
    seq(|s|, i requires 0 <= i < |s| => Lower(s[i]))
  }

  /** Not found by the verifier unaided where concatenations are compared. */
  lemma {:induction false} Associate<T>(a: seq<T>, b: seq<T>, c: seq<T>)
    ensures (a + b) + c == a + (b + c)
  {
  }

  /** Only A to Z change, each to the letter at its place. */
  lemma {:induction false} LowerIs(c: char)
    ensures 'A' <= c <= 'Z' ==> 'a' <= Lower(c) <= 'z' && Lower(c) as int - 'a' as int == c as int - 'A' as int
    ensures !('A' <= c <= 'Z') ==> Lower(c) == c
  {
  }
}
