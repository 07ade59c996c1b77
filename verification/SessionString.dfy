/** Session strings: six fields packed as >BI?256sQ?, then URL-safe base64 without padding. */
module SessionString {
  import opened Base
  import opened Base64Url

  const KEY_SIZE: nat := 256
  const PACKED_SIZE: nat := 271

  datatype Session = Session(dcId: int, apiId: int, testMode: bool, authKey: seq<Byte>, userId: int, isBot: bool)

  datatype PackError = StructError

  // ---------------- struct.pack ----------------

  function Power(n: nat): nat {
    if n == 0 then 1 else 256 * Power(n - 1)
  }

  /** A big-endian unsigned integer of n bytes. */
  function BigEndian(n: nat, v: nat): (bs: seq<Byte>)
    ensures |bs| == n
  {
    if n == 0 then [] else BigEndian(n - 1, v / 256) + [v % 256]
  }

  function Unsigned(bs: seq<Byte>): nat
    decreases |bs|
  {
    if bs == [] then 0 else Unsigned(bs[..|bs| - 1]) * 256 + bs[|bs| - 1]
  }

  /** The 256s code: longer keys are cut, shorter ones are filled with zero bytes. */
  function Fit(key: seq<Byte>): (fit: seq<Byte>)
    ensures |fit| == KEY_SIZE
  {
    if |key| >= KEY_SIZE then key[..KEY_SIZE] else key + seq(KEY_SIZE - |key|, _ => 0)
  }

  function Flag(b: bool): Byte {
    if b then 1 else 0
  }

  /** struct.error otherwise. */
  predicate InRange(s: Session) {
    0 <= s.dcId < 0x100 && 0 <= s.apiId < 0x1_0000_0000 && 0 <= s.userId < 0x1_0000_0000_0000_0000
  }

  function Pack(s: Session): (packed: Result<seq<Byte>, PackError>)
    ensures packed.Ok? ==> |packed.value| == PACKED_SIZE
  {
    if !InRange(s) then Err(StructError)
    else Ok([s.dcId] + BigEndian(4, s.apiId) + [Flag(s.testMode)] + Fit(s.authKey)
            + BigEndian(8, s.userId) + [Flag(s.isBot)])
  }

  function Unpack(bs: seq<Byte>): Session
    requires |bs| == PACKED_SIZE
  {
    Session(bs[0], Unsigned(bs[1..5]), bs[5] != 0, bs[6..262], Unsigned(bs[262..270]), bs[270] != 0)
  }

  /** _pyrogram_v2_session_string */
  function Write(s: Session): Result<string, PackError> {
    match Pack(s)
    case Err(e) => Err(e)
    case Ok(packed) => Ok(EncodeUnpadded(packed))
  }

  /** What a reader of the format does: re-pad, decode, unpack. */
  function Read(text: string): Option<Session> {
    match Decode(Repad(text))
    case Some(bs) => if |bs| == PACKED_SIZE then Some(Unpack(bs)) else None
    case None => None
  }

  lemma {:induction false} UnsignedOfBigEndian(n: nat, v: nat)
    requires v < Power(n)
    ensures Unsigned(BigEndian(n, v)) == v
  {
    if n > 0 {
      UnsignedOfBigEndian(n - 1, v / 256);
      var bs := BigEndian(n, v);
      assert bs[..|bs| - 1] == BigEndian(n - 1, v / 256);
    }
  }

  lemma {:induction false} Powers()
    ensures Power(4) == 0x1_0000_0000 && Power(8) == 0x1_0000_0000_0000_0000
  {
    assert Power(2) == 256 * Power(1) == 65536;
    assert Power(4) == 256 * Power(3) == 256 * (256 * Power(2));
    assert Power(6) == 256 * Power(5) == 256 * (256 * Power(4));
    assert Power(8) == 256 * Power(7) == 256 * (256 * Power(6));
  }

  lemma {:induction false} UnpackPack(s: Session)
    requires InRange(s)
    ensures Unpack(Pack(s).value) == s.(authKey := Fit(s.authKey))
  {
    var bs := Pack(s).value;
    var api, user := BigEndian(4, s.apiId), BigEndian(8, s.userId);
    assert bs[0] == s.dcId && bs[5] == Flag(s.testMode) && bs[270] == Flag(s.isBot);
    assert bs[1..5] == api;
    assert bs[6..262] == Fit(s.authKey);
    assert bs[262..270] == user;
    Powers();
    UnsignedOfBigEndian(4, s.apiId);
    UnsignedOfBigEndian(8, s.userId);
  }

  /** Every session with fields in range is written as 362 URL-safe characters, and reading them
      back gives the six fields, the key as struct fits it. */
  lemma {:induction false} ReadWrite(s: Session)
    ensures Write(s).Ok? <==> InRange(s)
    ensures InRange(s) <==> (&& 0 <= s.dcId <= 255 && 0 <= s.apiId <= 4_294_967_295
                             && 0 <= s.userId <= 18_446_744_073_709_551_615)
    ensures InRange(s) ==>
              && |Write(s).value| == 362 && UrlSafe(Write(s).value)
              && Read(Write(s).value) == Some(s.(authKey := Fit(s.authKey)))
  {
    if InRange(s) {
      UnpaddedIsLossless(Pack(s).value);
      UnpackPack(s);
    }
  }

  /** The six fields themselves come back exactly when the key has 256 bytes. */
  lemma {:induction false} LosslessIffFullKey(s: Session)
    requires InRange(s)
    ensures Read(Write(s).value) == Some(s) <==> |s.authKey| == KEY_SIZE
  {
    ReadWrite(s);
    if |s.authKey| == KEY_SIZE {
      assert Fit(s.authKey) == s.authKey;
    }
  }

  /** Two sessions share a string exactly when they agree up to fitting the key; so on 256-byte keys
      the encoding is injective. */
  lemma {:induction false} SameStringIff(a: Session, b: Session)
    requires InRange(a) && InRange(b)
    ensures Write(a) == Write(b) <==> a.(authKey := Fit(a.authKey)) == b.(authKey := Fit(b.authKey))
    ensures Write(a) == Write(b) && |a.authKey| == KEY_SIZE == |b.authKey| ==> a == b
  {
    ReadWrite(a);
    ReadWrite(b);
    if |a.authKey| == KEY_SIZE == |b.authKey| {
      assert Fit(a.authKey) == a.authKey && Fit(b.authKey) == b.authKey;
    }
  }

  // ---------------- the layout, byte by byte ----------------

  /** The number a byte string spells, read from the left, the first byte weighing most. */
  function Leading(bs: seq<Byte>): nat
    decreases |bs|
  {
    if bs == [] then 0 else bs[0] * Power(|bs| - 1) + Leading(bs[1..])
  }

  lemma {:induction false} LeadingSnoc(bs: seq<Byte>, b: Byte)
    ensures Leading(bs + [b]) == Leading(bs) * 256 + b
    decreases |bs|
  {
    if bs == [] {
      assert [b][1..] == [];
    } else {
      LeadingSnoc(bs[1..], b);
      assert (bs + [b])[1..] == bs[1..] + [b];
    }
  }

  lemma {:induction false} LeadingOfBigEndian(n: nat, v: nat)
    requires v < Power(n)
    ensures Leading(BigEndian(n, v)) == v
  {
    if n > 0 {
      LeadingOfBigEndian(n - 1, v / 256);
      LeadingSnoc(BigEndian(n - 1, v / 256), v % 256);
    }
  }

  lemma {:induction false} FourBytes(bs: seq<Byte>)
    requires |bs| == 4
    ensures Leading(bs) == bs[0] as int * 0x100_0000 + bs[1] as int * 0x1_0000 + bs[2] as int * 0x100 + bs[3] as int
  {
    assert bs[1..][1..] == bs[2..] && bs[2..][1..] == bs[3..] && bs[3..][1..] == [];
    assert Power(1) == 0x100 && Power(2) == 0x1_0000 && Power(3) == 0x100_0000;
    assert Leading(bs[3..]) == bs[3] as int * Power(0) + Leading([]);
    assert Leading(bs[2..]) == bs[2] as int * Power(1) + Leading(bs[3..]);
    assert Leading(bs[1..]) == bs[1] as int * Power(2) + Leading(bs[2..]);
  }

  /** The bytes of >BI?256sQ?: numbers most significant byte first, flags as 0 or 1, no padding between. */
  lemma {:induction false} Layout(s: Session)
    requires InRange(s)
    ensures var bs := Pack(s).value;
            && bs[0] == s.dcId
            && bs[1] as int * 0x100_0000 + bs[2] as int * 0x1_0000 + bs[3] as int * 0x100 + bs[4] as int == s.apiId
            && (bs[5] == if s.testMode then 1 else 0)
            && (forall i :: 0 <= i < 256 ==> bs[6 + i] == if i < |s.authKey| then s.authKey[i] else 0)
            && Leading(bs[262..270]) == s.userId
            && (bs[270] == if s.isBot then 1 else 0)
  {
    var bs := Pack(s).value;
    var api, user := BigEndian(4, s.apiId), BigEndian(8, s.userId);
    assert bs[1..5] == api && bs[262..270] == user && bs[6..262] == Fit(s.authKey);
    assert forall i :: 0 <= i < 256 ==> bs[6 + i] == bs[6..262][i];
    Powers();
    LeadingOfBigEndian(4, s.apiId);
    LeadingOfBigEndian(8, s.userId);
    FourBytes(bs[1..5]);
  }
}
