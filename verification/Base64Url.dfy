/** URL-safe base64 (section 5 of RFC 4648) with the padding dropped, and its decoder. */
module Base64Url {
  import opened Base

  type Byte = x: int | 0 <= x < 256

  type Sextet = x: int | 0 <= x < 64

  const PAD: char := '='

  function Char(v: Sextet): char {
    if v < 26 then 'A' + v as char
    else if v < 52 then 'a' + (v - 26) as char
    else if v < 62 then '0' + (v - 52) as char
    else if v == 62 then '-' else '_'
  }

  function Value(c: char): Option<Sextet> {
    if 'A' <= c <= 'Z' then Some((c - 'A') as int)
    else if 'a' <= c <= 'z' then Some((c - 'a') as int + 26)
    else if '0' <= c <= '9' then Some((c - '0') as int + 52)
    else if c == '-' then Some(62)
    else if c == '_' then Some(63)
    else None
  }

  predicate UrlSafe(s: string) {
    forall i :: 0 <= i < |s| ==> Value(s[i]).Some?
  }

  lemma {:induction false} ValueOfChar(v: Sextet)
    ensures Value(Char(v)) == Some(v) && Char(v) != PAD
  {
  }

  /** Three bytes as four characters. */
  function Quad(a: Byte, b: Byte, c: Byte): string {
    [Char(a / 4), Char(a % 4 * 16 + b / 16), Char(b % 16 * 4 + c / 64), Char(c % 64)]
  }

  /** urlsafe_b64encode */
  function Encode(bs: seq<Byte>): string
    decreases |bs|
  {
    if |bs| == 0 then ""
    else if |bs| == 1 then Quad(bs[0], 0, 0)[..2] + [PAD, PAD]
    else if |bs| == 2 then Quad(bs[0], bs[1], 0)[..3] + [PAD]
    else Quad(bs[0], bs[1], bs[2]) + Encode(bs[3..])
  }

  /** The last group of a padded string, or any full group. */
  function DecodeQuad(q: string): Option<seq<Byte>>
    requires |q| == 4
  {
    var a, b, c, d := Value(q[0]), Value(q[1]), Value(q[2]), Value(q[3]);
    if a.None? || b.None? then None
    else if q[2] == PAD && q[3] == PAD then Some([a.value * 4 + b.value / 16])
    else if c.None? then None
    else if q[3] == PAD then Some([a.value * 4 + b.value / 16, b.value % 16 * 16 + c.value / 4])
    else if d.None? then None
    else Some([a.value * 4 + b.value / 16, b.value % 16 * 16 + c.value / 4, c.value % 4 * 64 + d.value])
  }

  /** urlsafe_b64decode, on input whose length is a multiple of four. */
  function Decode(s: string): Option<seq<Byte>>
    decreases |s|
  {
    if |s| == 0 then Some([])
    else if |s| < 4 then None
    else
      var first := DecodeQuad(s[..4]);
      var rest := Decode(s[4..]);
      if first.None? || rest.None? then None else Some(first.value + rest.value)
  }

  function RStrip(s: string): string
    decreases |s|
  {
    if |s| > 0 && s[|s| - 1] == PAD then RStrip(s[..|s| - 1]) else s
  }

  /** Padding back to a multiple of four. */
  function Repad(s: string): string {
    if |s| % 4 == 2 then s + [PAD, PAD] else if |s| % 4 == 3 then s + [PAD] else s
  }

  /** urlsafe_b64encode(...).rstrip("=") */
  function EncodeUnpadded(bs: seq<Byte>): string {
    RStrip(Encode(bs))
  }

  /** The sextets a quad carries. */
  lemma {:induction false} QuadValues(a: Byte, b: Byte, c: Byte)
    ensures var q := Quad(a, b, c);
            && Value(q[0]) == Some(a / 4) && Value(q[1]) == Some(a % 4 * 16 + b / 16)
            && Value(q[2]) == Some(b % 16 * 4 + c / 64) && Value(q[3]) == Some(c % 64)
  {
    ValueOfChar(a / 4);
    ValueOfChar(a % 4 * 16 + b / 16);
    ValueOfChar(b % 16 * 4 + c / 64);
    ValueOfChar(c % 64);
  }

  lemma {:induction false} Recombine(a: Byte, b: Byte, c: Byte)
    ensures a / 4 * 4 + (a % 4 * 16 + b / 16) / 16 == a
    ensures (a % 4 * 16 + b / 16) % 16 * 16 + (b % 16 * 4 + c / 64) / 4 == b
    ensures (b % 16 * 4 + c / 64) % 4 * 64 + c % 64 == c
  {
  }

  lemma {:induction false} PadHasNoValue()
    ensures Value(PAD) == None
  {
  }

  lemma {:induction false} QuadDecodes(a: Byte, b: Byte, c: Byte)
    ensures DecodeQuad(Quad(a, b, c)) == Some([a, b, c])
  {
    QuadValues(a, b, c);
    Recombine(a, b, c);
    PadHasNoValue();
  }

  lemma {:induction false} PairDecodes(a: Byte, b: Byte)
    ensures DecodeQuad(Quad(a, b, 0)[..3] + [PAD]) == Some([a, b])
  {
    QuadValues(a, b, 0);
    Recombine(a, b, 0);
    PadHasNoValue();
  }

  lemma {:induction false} SingleDecodes(a: Byte)
    ensures DecodeQuad(Quad(a, 0, 0)[..2] + [PAD, PAD]) == Some([a])
  {
    QuadValues(a, 0, 0);
    Recombine(a, 0, 0);
  }

  /** A string of at least one group decodes group by group. */
  lemma {:induction false} DecodeGroup(q: string, rest: string)
    requires |q| == 4 && DecodeQuad(q).Some? && Decode(rest).Some?
    ensures Decode(q + rest) == Some(DecodeQuad(q).value + Decode(rest).value)
  {
    assert (q + rest)[..4] == q && (q + rest)[4..] == rest;
  }

  lemma {:induction false} DecodeOneGroup(q: string)
    requires |q| == 4 && DecodeQuad(q).Some?
    ensures Decode(q) == DecodeQuad(q)
  {
    DecodeGroup(q, "");
    assert q + "" == q;
    assert DecodeQuad(q).value + [] == DecodeQuad(q).value;
  }

  lemma {:induction false} DecodeEncode(bs: seq<Byte>)
    ensures Decode(Encode(bs)) == Some(bs)
    decreases |bs|
  {
    if |bs| > 2 {
      QuadDecodes(bs[0], bs[1], bs[2]);
      DecodeEncode(bs[3..]);
      DecodeGroup(Quad(bs[0], bs[1], bs[2]), Encode(bs[3..]));
      assert bs == [bs[0], bs[1], bs[2]] + bs[3..];
    } else if |bs| == 2 {
      PairDecodes(bs[0], bs[1]);
      DecodeOneGroup(Encode(bs));
      assert bs == [bs[0], bs[1]];
    } else if |bs| == 1 {
      SingleDecodes(bs[0]);
      DecodeOneGroup(Encode(bs));
      assert bs == [bs[0]];
    }
  }

  /** The data characters of an encoding. */
  function Body(bs: seq<Byte>): string
    decreases |bs|
  {
    if |bs| == 0 then ""
    else if |bs| == 1 then Quad(bs[0], 0, 0)[..2]
    else if |bs| == 2 then Quad(bs[0], bs[1], 0)[..3]
    else Quad(bs[0], bs[1], bs[2]) + Body(bs[3..])
  }

  /** The encoding is its data characters followed by the padding that brings it to a multiple of
      four. */
  lemma {:induction false} EncodeIsPaddedBody(bs: seq<Byte>)
    ensures Encode(bs) == Repad(Body(bs)) && |Body(bs)| == (4 * |bs| + 2) / 3
    decreases |bs|
  {
    if |bs| > 2 {
      EncodeIsPaddedBody(bs[3..]);
      RepadGroup(Quad(bs[0], bs[1], bs[2]), Body(bs[3..]));
    }
  }

  lemma {:induction false} RepadGroup(q: string, rest: string)
    requires |q| == 4
    ensures Repad(q + rest) == q + Repad(rest)
  {
    assert |q + rest| % 4 == |rest| % 4;
    assert (q + rest) + [PAD] == q + (rest + [PAD]);
    assert (q + rest) + [PAD, PAD] == q + (rest + [PAD, PAD]);
  }

  lemma {:induction false} BodyIsUrlSafe(bs: seq<Byte>)
    ensures UrlSafe(Body(bs)) && forall i :: 0 <= i < |Body(bs)| ==> Body(bs)[i] != PAD
    decreases |bs|
  {
    PadHasNoValue();
    if |bs| > 0 {
      QuadValues(bs[0], if |bs| > 1 then bs[1] else 0, if |bs| > 2 then bs[2] else 0);
    }
    if |bs| > 2 {
      BodyIsUrlSafe(bs[3..]);
    }
  }

  lemma {:induction false} StripUndoesRepad(body: string)
    requires forall i :: 0 <= i < |body| ==> body[i] != PAD
    ensures RStrip(Repad(body)) == body
  {
    var s := Repad(body);
    assert RStrip(body) == body;
    if |body| % 4 == 2 {
      assert s[..|s| - 1] == body + [PAD];
      assert (body + [PAD])[..|body|] == body;
      assert RStrip(body + [PAD]) == body;
    } else if |body| % 4 == 3 {
      assert s[..|s| - 1] == body;
    }
  }

  /** Dropping the padding loses nothing, for byte strings of every length. */
  lemma {:induction false} UnpaddedIsLossless(bs: seq<Byte>)
    ensures Decode(Repad(EncodeUnpadded(bs))) == Some(bs)
    ensures UrlSafe(EncodeUnpadded(bs)) && |EncodeUnpadded(bs)| == (4 * |bs| + 2) / 3
  {
    EncodeIsPaddedBody(bs);
    BodyIsUrlSafe(bs);
    StripUndoesRepad(Body(bs));
    DecodeEncode(bs);
  }

  // ---------------- against the standard ----------------

  /** Table 2 of RFC 4648, section 5: upper case, lower case, digits, each in order, then '-' and '_'. */
  lemma {:induction false} AlphabetIs(v: Sextet)
    ensures Char(0) == 'A' && Char(25) == 'Z' && Char(26) == 'a' && Char(51) == 'z'
    ensures Char(52) == '0' && Char(61) == '9' && Char(62) == '-' && Char(63) == '_'
    ensures v < 61 && v != 25 && v != 51 ==> Char(v + 1) as int == Char(v) as int + 1
  {
  }

  /** Three bytes and four characters are the same 24 bits, most significant first. */
  lemma {:induction false} QuadIsTheNumber(a: Byte, b: Byte, c: Byte)
    ensures var q := Quad(a, b, c);
            && (forall i :: 0 <= i < 4 ==> Value(q[i]).Some?)
            && Value(q[0]).value * 262144 + Value(q[1]).value * 4096 + Value(q[2]).value * 64 + Value(q[3]).value ==
               a as int * 65536 + b as int * 256 + c as int
  {
    QuadValues(a, b, c);
  }

  /** The test vectors of section 10 of RFC 4648. */
  lemma {:induction false} TestVectors()
    ensures Encode([]) == "" && Encode([0x66]) == "Zg==" && Encode([0x66, 0x6F]) == "Zm8="
    ensures Encode([0x66, 0x6F, 0x6F]) == "Zm9v"
    ensures Encode([0x66, 0x6F, 0x6F, 0x62]) == "Zm9vYg==" && Encode([0x66, 0x6F, 0x6F, 0x62, 0x61]) == "Zm9vYmE="
    ensures Encode([0x66, 0x6F, 0x6F, 0x62, 0x61, 0x72]) == "Zm9vYmFy"
  {
    var foo: seq<Byte> := [0x66, 0x6F, 0x6F];
    assert Quad(0x66, 0x6F, 0x6F) == "Zm9v";
    assert Encode(foo) == "Zm9v" by {
      assert foo[3..] == [];
    }
    Groups(foo, [0x62]);
    Groups(foo, [0x62, 0x61]);
    Groups(foo, [0x62, 0x61, 0x72]);
    var bar: seq<Byte> := [0x62, 0x61, 0x72];
    assert Encode(bar) == "YmFy" by {
      assert bar[3..] == [];
    }
  }

  lemma {:induction false} Groups(q: seq<Byte>, rest: seq<Byte>)
    requires |q| == 3
    ensures Encode(q + rest) == Quad(q[0], q[1], q[2]) + Encode(rest)
  {
    assert (q + rest)[3..] == rest;
  }
}
