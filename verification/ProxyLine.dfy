/** The proxy line grammar and the URL printer. White space is Python's; words and digits are ASCII. */
module ProxyLine {
  import opened Base

  datatype Proxy = Proxy(scheme: string, host: string, port: nat, username: Option<string>, password: Option<string>)

  // ---------------- character classes ----------------

  datatype Class = Word | UserChar | PasswordChar | HostChar | Digit | Space

  predicate IsDigit(c: char) {
    '0' <= c <= '9'
  }

  predicate IsWord(c: char) {
    'a' <= c <= 'z' || 'A' <= c <= 'Z' || IsDigit(c) || c == '_'
  }

  predicate In(c: char, cls: Class) {
    match cls
    case Word => IsWord(c)
    case UserChar => c != ':' && c != '@' && !IsSpace(c)
    case PasswordChar => c != '@' && !IsSpace(c)
    case HostChar => IsWord(c) || c == '.' || c == '-'
    case Digit => IsDigit(c)
    case Space => IsSpace(c)
  }

  predicate All(s: string, cls: Class) {
    forall i :: 0 <= i < |s| ==> In(s[i], cls)
  }

  /** One or more characters of a class. */
  predicate Plus(s: string, cls: Class) {
    s != "" && All(s, cls)
  }

  /** The length of the longest prefix in the class. */
  function Span(s: string, cls: Class): (n: nat)
    ensures n <= |s| && All(s[..n], cls) && (n < |s| ==> !In(s[n], cls))
  {
    if s == "" || !In(s[0], cls) then 0 else 1 + Span(s[1..], cls)
  }

  /** A run of the class ends where the class ends: its extent is forced. */
  lemma {:induction false} SpanIs(s: string, cls: Class, n: nat)
    requires n <= |s| && All(s[..n], cls) && (n < |s| ==> !In(s[n], cls))
    ensures Span(s, cls) == n
  {
    if n > 0 {
      assert s[..n][0] == s[0];
      assert s[1..][..n - 1] == s[..n][1..];
      SpanIs(s[1..], cls, n - 1);
    }
  }

  // ---------------- the grammar, declaratively ----------------

  /** The groups of one match; `tail` is what the final \s* takes. */
  datatype Parts = Parts(
    scheme: Option<string>,
    auth: Option<(string, string)>,
    host: string,
    digits: string,
    tail: string)

  function SchemeText(scheme: Option<string>): string {
    if scheme.Some? then scheme.value + "://" else ""
  }

  function AuthText(auth: Option<(string, string)>): string {
    if auth.Some? then auth.value.0 + ":" + auth.value.1 + "@" else ""
  }

  /** raw is spelled by the parts, each in its character class. */
  predicate Spells(raw: string, p: Parts) {
    && raw == SchemeText(p.scheme) + (AuthText(p.auth) + (p.host + ":" + p.digits + p.tail))
    && (p.scheme.Some? ==> Plus(p.scheme.value, Word))
    && (p.auth.Some? ==> Plus(p.auth.value.0, UserChar) && Plus(p.auth.value.1, PasswordChar))
    && Plus(p.host, HostChar) && Plus(p.digits, Digit) && All(p.tail, Space)
  }

  // ---------------- the matcher ----------------

  function MatchScheme(s: string): Option<(string, string)> {
    var n := Span(s, Word);
    if n > 0 && n + 3 <= |s| && s[n..n + 3] == "://" then Some((s[..n], s[n + 3..])) else None
  }

  function MatchAuth(s: string): Option<((string, string), string)> {
    var n := Span(s, UserChar);
    if n == 0 || n == |s| || s[n] != ':' then None
    else
      var t := s[n + 1..];
      var m := Span(t, PasswordChar);
      if m == 0 || m == |t| || t[m] != '@' then None else Some(((s[..n], t[..m]), t[m + 1..]))
  }

  /** host:port and trailing space, to the end. */
  function MatchEnd(s: string): Option<(string, string, string)> {
    var n := Span(s, HostChar);
    if n == 0 || n == |s| || s[n] != ':' then None
    else
      var t := s[n + 1..];
      var m := Span(t, Digit);
      if m == 0 || !All(t[m..], Space) then None else Some((s[..n], t[..m], t[m..]))
  }

  /** The optional auth group is greedy: matching with it comes first. */
  function MatchRest(s: string, scheme: Option<string>): Option<Parts> {
    var auth := MatchAuth(s);
    var end := if auth.Some? then MatchEnd(auth.value.1) else None;
    if end.Some? then Some(Parts(scheme, Some(auth.value.0), end.value.0, end.value.1, end.value.2))
    else
      match MatchEnd(s)
      case Some((host, digits, tail)) => Some(Parts(scheme, None, host, digits, tail))
      case None => None
  }

  /** _PROXY_RE.match; the optional scheme group is greedy too. */
  function Match(raw: string): Option<Parts> {
    var scheme := MatchScheme(raw);
    var withScheme := if scheme.Some? then MatchRest(scheme.value.1, Some(scheme.value.0)) else None;
    if withScheme.Some? then withScheme else MatchRest(raw, None)
  }

  // ---------------- the matcher finds the preferred spelling ----------------

  lemma {:induction false} EndFound(s: string, host: string, digits: string, tail: string)
    requires s == host + ":" + digits + tail
    requires Plus(host, HostChar) && Plus(digits, Digit) && All(tail, Space)
    ensures MatchEnd(s) == Some((host, digits, tail))
  {
    var n := |host|;
    assert s[..n] == host && s[n] == ':';
    SpanIs(s, HostChar, n);
    var t := s[n + 1..];
    assert t == digits + tail && t[..|digits|] == digits && t[|digits|..] == tail;
    if |digits| < |t| {
      assert t[|digits|] == tail[0];
    }
    SpanIs(t, Digit, |digits|);
  }

  lemma {:induction false} EndSound(s: string)
    requires MatchEnd(s).Some?
    ensures var (host, digits, tail) := MatchEnd(s).value;
            && s == host + ":" + digits + tail
            && Plus(host, HostChar) && Plus(digits, Digit) && All(tail, Space)
  {
  }

  lemma {:induction false} AuthFound(s: string, user: string, pwd: string, rest: string)
    requires s == user + ":" + pwd + "@" + rest && Plus(user, UserChar) && Plus(pwd, PasswordChar)
    ensures MatchAuth(s) == Some(((user, pwd), rest))
  {
    var n := |user|;
    assert s[..n] == user && s[n] == ':';
    SpanIs(s, UserChar, n);
    var t := s[n + 1..];
    assert t == pwd + "@" + rest && t[..|pwd|] == pwd && t[|pwd|] == '@' && t[|pwd| + 1..] == rest;
    SpanIs(t, PasswordChar, |pwd|);
  }

  lemma {:induction false} AuthSound(s: string)
    requires MatchAuth(s).Some?
    ensures var ((user, pwd), rest) := MatchAuth(s).value;
            s == user + ":" + pwd + "@" + rest && Plus(user, UserChar) && Plus(pwd, PasswordChar)
  {
  }

  lemma {:induction false} SchemeFound(s: string, scheme: string, rest: string)
    requires s == scheme + "://" + rest && Plus(scheme, Word)
    ensures MatchScheme(s) == Some((scheme, rest))
  {
    var n := |scheme|;
    assert s[..n] == scheme && s[n] == ':';
    SpanIs(s, Word, n);
    assert s[n..n + 3] == "://" && s[n + 3..] == rest;
  }

  lemma {:induction false} SchemeSound(s: string)
    requires MatchScheme(s).Some?
    ensures var (scheme, rest) := MatchScheme(s).value;
            s == scheme + "://" + rest && Plus(scheme, Word)
  {
    var n := Span(s, Word);
    assert s == s[..n] + s[n..n + 3] + s[n + 3..];
  }

  /** Where a match's scheme ends and what follows. */
  function Remainder(p: Parts): string {
    AuthText(p.auth) + (p.host + ":" + p.digits + p.tail)
  }

  lemma {:induction false} RestWithAuth(s: string, p: Parts, end: string)
    requires MatchEnd(end) == Some((p.host, p.digits, p.tail))
    requires p.auth.Some? && MatchAuth(s) == Some((p.auth.value, end))
    ensures MatchRest(s, p.scheme) == Some(p)
  {
  }

  lemma {:induction false} RestWithout(s: string, p: Parts)
    requires p.auth.None? && MatchEnd(s) == Some((p.host, p.digits, p.tail))
    ensures var got := MatchRest(s, p.scheme);
            got.Some? && (got.value.auth.None? ==> got.value == p)
  {
  }

  lemma {:induction false} RestFound(p: Parts)
    requires Plus(p.host, HostChar) && Plus(p.digits, Digit) && All(p.tail, Space)
    requires p.auth.Some? ==> Plus(p.auth.value.0, UserChar) && Plus(p.auth.value.1, PasswordChar)
    ensures var got := MatchRest(Remainder(p), p.scheme);
            got.Some? && (p.auth.Some? ==> got.value == p) && (got.value.auth.None? ==> got.value == p)
  {
    var end := p.host + ":" + p.digits + p.tail;
    EndFound(end, p.host, p.digits, p.tail);
    if p.auth.Some? {
      var (user, pwd) := p.auth.value;
      AuthThenEnd(user, pwd, end);
      AuthFound(Remainder(p), user, pwd, end);
      RestWithAuth(Remainder(p), p, end);
    } else {
      assert Remainder(p) == end;
      RestWithout(Remainder(p), p);
    }
  }

  lemma {:induction false} AuthThenEnd(user: string, pwd: string, end: string)
    ensures AuthText(Some((user, pwd))) + end == user + ":" + pwd + "@" + end
  {
  }

  lemma {:induction false} RestSound(s: string, scheme: Option<string>)
    requires MatchRest(s, scheme).Some? && (scheme.Some? ==> Plus(scheme.value, Word))
    ensures var p := MatchRest(s, scheme).value;
            p.scheme == scheme && Remainder(p) == s && Spells(SchemeText(scheme) + s, p)
  {
    var auth := MatchAuth(s);
    if auth.Some? && MatchEnd(auth.value.1).Some? {
      AuthSound(s);
      EndSound(auth.value.1);
      var p := MatchRest(s, scheme).value;
      assert Remainder(p) == p.auth.value.0 + ":" + p.auth.value.1 + "@" + auth.value.1;
    } else {
      EndSound(s);
    }
  }

  /** How greedily a match used the optional groups: scheme first, then auth. */
  function Preference(p: Parts): nat {
    (if p.scheme.Some? then 2 else 0) + (if p.auth.Some? then 1 else 0)
  }

  /** A match exists exactly when some parts spell the line; the one found spells it, and it is the
      most greedy of all, without a rival of equal greed. */
  lemma {:induction false} MatchIsGreedy(raw: string)
    ensures Match(raw).Some? ==> Spells(raw, Match(raw).value)
    ensures forall p :: Spells(raw, p) ==>
              Match(raw).Some? && Preference(p) <= Preference(Match(raw).value)
              && (Preference(p) == Preference(Match(raw).value) ==> p == Match(raw).value)
  {
    MatchSound(raw);
    forall p | Spells(raw, p)
      ensures Match(raw).Some? && Preference(p) <= Preference(Match(raw).value)
              && (Preference(p) == Preference(Match(raw).value) ==> p == Match(raw).value)
    {
      MatchFound(raw, p);
    }
  }

  lemma {:induction false} MatchSound(raw: string)
    ensures Match(raw).Some? ==> Spells(raw, Match(raw).value)
  {
    var scheme := MatchScheme(raw);
    if scheme.Some? && MatchRest(scheme.value.1, Some(scheme.value.0)).Some? {
      SchemeSound(raw);
      RestSound(scheme.value.1, Some(scheme.value.0));
      assert raw == SchemeText(Some(scheme.value.0)) + scheme.value.1;
    } else if MatchRest(raw, None).Some? {
      RestSound(raw, None);
      assert SchemeText(None) + raw == raw;
    }
  }

  lemma {:induction false} MatchFound(raw: string, p: Parts)
    requires Spells(raw, p)
    ensures Match(raw).Some? && Preference(p) <= Preference(Match(raw).value)
    ensures Preference(p) == Preference(Match(raw).value) ==> p == Match(raw).value
  {
    assert raw == SchemeText(p.scheme) + Remainder(p);
    RestFound(p);
    if p.scheme.Some? {
      assert raw == p.scheme.value + "://" + Remainder(p);
      SchemeFound(raw, p.scheme.value, Remainder(p));
    } else {
      assert raw == Remainder(p);
      var scheme := MatchScheme(raw);
      if scheme.Some? && MatchRest(scheme.value.1, Some(scheme.value.0)).Some? {
        SchemeSound(raw);
        RestSound(scheme.value.1, Some(scheme.value.0));
      }
    }
  }

  // ---------------- numbers, case, stripping ----------------

  function DigitChar(d: nat): char
    requires d < 10
  {
    '0' + d as char
  }

  function Decimal(n: nat): string {
    if n < 10 then [DigitChar(n)] else Decimal(n / 10) + [DigitChar(n % 10)]
  }

  /** int() of a digit string. */
  function Number(digits: string): nat
    requires All(digits, Digit)
    decreases |digits|
  {
    if digits == "" then 0
    else Number(digits[..|digits| - 1]) * 10 + (digits[|digits| - 1] - '0') as nat
  }

  lemma {:induction false} NumberOfDecimal(n: nat)
    ensures Plus(Decimal(n), Digit) && Number(Decimal(n)) == n
  {
    if n < 10 {
      var s := Decimal(n);
      assert s[..|s| - 1] == "";
    } else {
      NumberOfDecimal(n / 10);
      var s := Decimal(n);
      assert s[..|s| - 1] == Decimal(n / 10);
    }
  }

  predicate IsLower(s: string) {
    forall i :: 0 <= i < |s| ==> !('A' <= s[i] <= 'Z')
  }

  lemma {:induction false} LowerFacts(s: string)
    ensures IsLower(LowerAll(s)) && (Plus(s, Word) ==> Plus(LowerAll(s), Word))
    ensures IsLower(s) ==> LowerAll(s) == s
  {
  }

  function DropMarks(s: string): string
    decreases |s|
  {
    if s != "" && s[0] == '\U{FEFF}' then DropMarks(s[1..]) else s
  }

  // ---------------- the parser and the printer ----------------

  /** What parse_proxy_line matches: the line without surrounding space and leading byte order marks. */
  function Raw(line: string): string {
    DropMarks(RStrip(LStrip(line)))
  }

  /** parse_proxy_line */
  function ParseLine(line: string, defaultScheme: string): Option<Proxy> {
    var raw := Raw(line);
    if raw == "" || raw[0] == '#' then None
    else
      MatchSound(raw);
      match Match(raw)
      case None => None
      case Some(p) =>
        Some(Proxy(LowerAll(if p.scheme.Some? then p.scheme.value else defaultScheme), p.host, Number(p.digits),
                   if p.auth.Some? then Some(p.auth.value.0) else None,
                   if p.auth.Some? then Some(p.auth.value.1) else None))
  }

  predicate Truthy(s: Option<string>) {
    s.Some? && s.value != ""
  }

  /** The proxy URL _ping_proxy builds. */
  function Print(p: Proxy): string {
    var auth := if Truthy(p.username) && Truthy(p.password)
                then p.username.value + ":" + p.password.value + "@" else "";
    p.scheme + "://" + auth + p.host + ":" + Decimal(p.port)
  }

  predicate WellFormed(p: Proxy) {
    && Plus(p.scheme, Word) && IsLower(p.scheme) && Plus(p.host, HostChar)
    && (p.username.None? <==> p.password.None?)
    && (p.username.Some? ==> Plus(p.username.value, UserChar) && Plus(p.password.value, PasswordChar))
  }

  /** Whatever a line parses to is well formed. */
  lemma {:induction false} ParsedIsWellFormed(line: string, defaultScheme: string)
    requires Plus(defaultScheme, Word) && ParseLine(line, defaultScheme).Some?
    ensures WellFormed(ParseLine(line, defaultScheme).value)
  {
    var raw := Raw(line);
    MatchSound(raw);
    var p := Match(raw).value;
    LowerFacts(if p.scheme.Some? then p.scheme.value else defaultScheme);
  }

  function PartsOf(p: Proxy): Parts
    requires WellFormed(p)
  {
    Parts(Some(p.scheme), if p.username.Some? then Some((p.username.value, p.password.value)) else None,
          p.host, Decimal(p.port), "")
  }

  lemma {:induction false} PrintSpells(p: Proxy)
    requires WellFormed(p)
    ensures Spells(Print(p), PartsOf(p))
  {
    NumberOfDecimal(p.port);
    var parts := PartsOf(p);
    assert Print(p) == SchemeText(parts.scheme) + (AuthText(parts.auth) + (p.host + ":" + parts.digits + ""));
  }

  lemma {:induction false} UrlHasNoAt(p: Proxy)
    requires WellFormed(p) && p.username.None?
    ensures '@' !in Print(p)
  {
    NumberOfDecimal(p.port);
    assert Print(p) == p.scheme + "://" + p.host + ":" + Decimal(p.port);
    assert forall c | c in p.scheme :: In(c, Word);
    assert forall c | c in p.host :: In(c, HostChar);
    assert forall c | c in Decimal(p.port) :: In(c, Digit);
  }

  lemma {:induction false} AuthHasAt(raw: string, p: Parts)
    requires Spells(raw, p) && p.auth.Some?
    ensures '@' in raw
  {
    assert '@' in AuthText(p.auth);
  }

  /** Without credentials no reading of the URL has any: there is no '@' in it. */
  lemma {:induction false} NoAuthReading(p: Proxy, other: Parts)
    requires WellFormed(p) && p.username.None? && Spells(Print(p), other)
    ensures other.auth.None?
  {
    UrlHasNoAt(p);
    if other.auth.Some? {
      AuthHasAt(Print(p), other);
    }
  }

  lemma {:induction false} NothingToStrip(p: Proxy)
    requires WellFormed(p)
    ensures DropMarks(RStrip(LStrip(Print(p)))) == Print(p) && Print(p) != "" && Print(p)[0] != '#'
  {
    NumberOfDecimal(p.port);
    var url := Print(p);
    assert url[0] == p.scheme[0] && In(p.scheme[0], Word);
    var digits := Decimal(p.port);
    assert url[|url| - 1] == digits[|digits| - 1] && In(digits[|digits| - 1], Digit);
  }

  lemma {:induction false} RoundTrip(p: Proxy, defaultScheme: string)
    requires WellFormed(p)
    ensures ParseLine(Print(p), defaultScheme) == Some(p)
  {
    var url := Print(p);
    NothingToStrip(p);
    PrintSpells(p);
    MatchFound(url, PartsOf(p));
    MatchSound(url);
    if p.username.None? {
      NoAuthReading(p, Match(url).value);
    }
    assert Match(url).value == PartsOf(p);
    NumberOfDecimal(p.port);
    LowerFacts(p.scheme);
  }

  /** Parsing the printed URL gives the proxy back exactly when the proxy is well formed. */
  lemma {:induction false} RoundTripIff(p: Proxy, defaultScheme: string)
    requires Plus(defaultScheme, Word)
    ensures ParseLine(Print(p), defaultScheme) == Some(p) <==> WellFormed(p)
  {
    if WellFormed(p) {
      RoundTrip(p, defaultScheme);
    } else if ParseLine(Print(p), defaultScheme) == Some(p) {
      ParsedIsWellFormed(Print(p), defaultScheme);
    }
  }

  /** So every accepted line, printed and parsed again, gives the same proxy. */
  lemma {:induction false} PrintedLineParsesTheSame(line: string, defaultScheme: string)
    requires Plus(defaultScheme, Word) && ParseLine(line, defaultScheme).Some?
    ensures var p := ParseLine(line, defaultScheme).value;
            ParseLine(Print(p), defaultScheme) == Some(p)
  {
    ParsedIsWellFormed(line, defaultScheme);
    RoundTrip(ParseLine(line, defaultScheme).value, defaultScheme);
  }

  // ---------------- lines, in the forms the file documents ----------------

  /** The characters of each class. */
  lemma {:induction false} ClassesAre(c: char)
    ensures In(c, Digit) <==> c in "0123456789"
    ensures In(c, Word) <==> c in "0123456789_" || 'a' <= c <= 'z' || 'A' <= c <= 'Z'
    ensures In(c, HostChar) <==> c in "0123456789_.-" || 'a' <= c <= 'z' || 'A' <= c <= 'Z'
    ensures In(c, UserChar) <==> c != ':' && c != '@' && !In(c, Space)
    ensures In(c, PasswordChar) <==> c != '@' && !In(c, Space)
  {
  }

  const WIDE_SPACES: string :=
    "\U{0085}\U{00A0}\U{1680}\U{2000}\U{2001}\U{2002}\U{2003}\U{2004}\U{2005}\U{2006}\U{2007}\U{2008}\U{2009}"
    + "\U{200A}\U{2028}\U{2029}\U{202F}\U{205F}\U{3000}"

  /** Python's white space: the ASCII separators and controls, and nineteen wider characters. */
  lemma {:induction false} SpacesAre(c: char)
    ensures c as int < 128 ==>
              (In(c, Space) <==> c in "\t\n\r " || 0x0B <= c as int <= 0x0C || 0x1C <= c as int <= 0x1F)
    ensures c as int >= 128 ==> (In(c, Space) <==> c in WIDE_SPACES)
  {
  }

  lemma {:induction false} MarksDropped(s: string) returns (k: nat)
    ensures k <= |s| && DropMarks(s) == s[k..] && (forall i :: 0 <= i < k ==> s[i] == '\U{FEFF}')
    ensures k < |s| ==> s[k] != '\U{FEFF}'
    decreases |s|
  {
    k := 0;
    if s != "" && s[0] == '\U{FEFF}' {
      k := MarksDropped(s[1..]);
      k := k + 1;
    }
  }

  /** The core of a line is found whatever space and marks precede it and whatever space follows. */
  lemma {:induction false} RawIs(line: string, pre: string, marks: string, core: string, post: string)
    requires line == pre + (marks + core) + post && All(pre, Space) && All(post, Space)
    requires (forall i :: 0 <= i < |marks| ==> marks[i] == '\U{FEFF}') && core != ""
    requires core[0] != '\U{FEFF}' && !IsSpace(core[0]) && !IsSpace(core[|core| - 1])
    ensures Raw(line) == core
  {
    var i, j := |pre|, |pre| + |marks| + |core|;
    var middle := marks + core;
    assert line[i..j] == middle;
    assert line[i] == middle[0] && line[j - 1] == core[|core| - 1];
    assert Surrounded(line, i, j) by {
      forall k | 0 <= k < i || j <= k < |line|
        ensures IsSpace(line[k])
      {
        assert line[k] == if k < i then pre[k] else post[k - j];
      }
    }
    StripIsUnique(line, i, j);
    var k := MarksDropped(middle);
    assert middle[|marks|] == core[0];
    assert forall n :: 0 <= n < |marks| ==> middle[n] == marks[n];
    assert k == |marks|;
    assert middle[|marks|..] == core;
  }

  /** A comment is no proxy, even one that would match, and whatever space or marks precede the '#'. */
  lemma {:induction false} CommentIsSkipped(pre: string, marks: string, text: string, defaultScheme: string)
    requires All(pre, Space) && forall i :: 0 <= i < |marks| ==> marks[i] == '\U{FEFF}'
    ensures ParseLine(pre + (marks + ("#" + text)), defaultScheme).None?
  {
    var line := pre + (marks + ("#" + text));
    var x, y := StripIs("#" + text);
    assert x == 0 && y > 0 by {
      assert ("#" + text)[0] == '#';
    }
    var core, post := ("#" + text)[..y], ("#" + text)[y..];
    assert line == pre + (marks + core) + post by {
      assert "#" + text == core + post;
    }
    assert core[0] == '#' && core[|core| - 1] == ("#" + text)[y - 1];
    RawIs(line, pre, marks, core, post);
  }

  /** A line is a proxy exactly when its core is not empty, is no comment and has a spelling in the grammar. */
  lemma {:induction false} LineIff(line: string, defaultScheme: string)
    ensures ParseLine(line, defaultScheme).Some?
            <==> Raw(line) != "" && Raw(line)[0] != '#' && exists p: Parts :: Spells(Raw(line), p)
  {
    MatchIsGreedy(Raw(line));
  }

  /** The fields are those of the preferred spelling; without a scheme the default stands in. */
  lemma {:induction false} FieldsAre(line: string, defaultScheme: string)
    requires ParseLine(line, defaultScheme).Some?
    ensures Match(Raw(line)).Some? && Spells(Raw(line), Match(Raw(line)).value)
    ensures var proxy, p := ParseLine(line, defaultScheme).value, Match(Raw(line)).value;
            && proxy.scheme == LowerAll(if p.scheme.Some? then p.scheme.value else defaultScheme)
            && proxy.host == p.host && All(p.digits, Digit) && proxy.port == Number(p.digits)
            && (p.auth.None? ==> proxy.username.None? && proxy.password.None?)
            && (p.auth.Some? ==> proxy.username == Some(p.auth.value.0) && proxy.password == Some(p.auth.value.1))
  {
    MatchSound(Raw(line));
  }

  /** The port is read in base ten: leading zeros add nothing, and a digit more multiplies by ten. */
  lemma {:induction false} NumberGrows(digits: string, d: char)
    requires All(digits, Digit) && IsDigit(d)
    ensures All(digits + [d], Digit) && Number(digits + [d]) == 10 * Number(digits) + (d as int - '0' as int)
  {
    assert (digits + [d])[..|digits|] == digits;
  }

  /** login:password@host:port and host:port take the default scheme; only a password that begins with "//"
      could make the login a scheme. */
  lemma {:induction false} NoSchemeLine(auth: Option<(string, string)>, host: string, digits: string,
      defaultScheme: string)
    requires Plus(host, HostChar) && Plus(digits, Digit)
    requires auth.Some? ==> Plus(auth.value.0, UserChar) && Plus(auth.value.1, PasswordChar)
    requires auth.Some? ==> !("//" <= auth.value.1) && auth.value.0[0] != '#' && auth.value.0[0] != '\U{FEFF}'
    ensures ParseLine(AuthText(auth) + (host + ":" + digits), defaultScheme) ==
            Some(Proxy(LowerAll(defaultScheme), host, Number(digits), if auth.Some? then Some(auth.value.0) else None,
                       if auth.Some? then Some(auth.value.1) else None))
  {
    var line := AuthText(auth) + (host + ":" + digits);
    FirstChar(auth, host, digits);
    Undecorated(line, digits);
    NoSchemeMatch(auth, host, digits);
  }

  /** A line that begins with a character of the grammar and ends with a digit is its own core. */
  lemma {:induction false} Undecorated(line: string, digits: string)
    requires Plus(digits, Digit) && |line| >= |digits| && line[|line| - |digits|..] == digits
    requires line[0] != '\U{FEFF}' && !IsSpace(line[0])
    ensures Raw(line) == line
  {
    assert line[|line| - 1] == digits[|digits| - 1];
    assert In(digits[|digits| - 1], Digit);
    assert line == "" + ("" + line) + "";
    RawIs(line, "", "", line, "");
  }

  lemma {:induction false} NoSchemeMatch(auth: Option<(string, string)>, host: string, digits: string)
    requires Plus(host, HostChar) && Plus(digits, Digit)
    requires auth.Some? ==> Plus(auth.value.0, UserChar) && Plus(auth.value.1, PasswordChar) && !("//" <= auth.value.1)
    ensures Match(AuthText(auth) + (host + ":" + digits)) == Some(Parts(None, auth, host, digits, ""))
  {
    var line := AuthText(auth) + (host + ":" + digits);
    var p := Parts(None, auth, host, digits, "");
    assert line == SchemeText(None) + (AuthText(auth) + (host + ":" + digits + "")) by {
      assert host + ":" + digits + "" == host + ":" + digits;
    }
    MatchFound(line, p);
    MatchSound(line);
    NoSchemeReading(auth, host, digits, Match(line).value);
  }

  lemma {:induction false} FirstChar(auth: Option<(string, string)>, host: string, digits: string)
    requires Plus(host, HostChar) && (auth.Some? ==> Plus(auth.value.0, UserChar))
    ensures var line := AuthText(auth) + (host + ":" + digits);
            line != "" && line[0] == if auth.Some? then auth.value.0[0] else host[0]
  {
    if auth.Some? {
      assert (AuthText(auth) + (host + ":" + digits))[0] == auth.value.0[0];
    } else {
      assert AuthText(auth) + (host + ":" + digits) == host + ":" + digits;
    }
  }

  /** No reading of such a line has a scheme, and with a login none is without it. */
  lemma {:induction false} NoSchemeReading(auth: Option<(string, string)>, host: string, digits: string, q: Parts)
    requires Plus(host, HostChar) && Plus(digits, Digit)
    requires auth.Some? ==> Plus(auth.value.0, UserChar) && Plus(auth.value.1, PasswordChar) && !("//" <= auth.value.1)
    requires Spells(AuthText(auth) + (host + ":" + digits), q)
    ensures q.scheme.None? && (auth.None? ==> q.auth.None?)
  {
    if auth.None? {
      BareReading(host, digits, q);
    } else if q.scheme.Some? {
      LoginReading(auth.value.0, auth.value.1, host + ":" + digits, q);
    }
  }

  lemma {:induction false} BareReading(host: string, digits: string, q: Parts)
    requires Plus(host, HostChar) && Plus(digits, Digit) && Spells(AuthText(None) + (host + ":" + digits), q)
    ensures q.scheme.None? && q.auth.None?
  {
    var line := host + ":" + digits;
    assert AuthText(None) + (host + ":" + digits) == line;
    assert forall c | c in line :: c != '@' && c != '/' by {
      assert forall c | c in host :: In(c, HostChar);
      assert forall c | c in digits :: In(c, Digit);
    }
    if q.auth.Some? {
      AuthHasAt(line, q);
    }
    if q.scheme.Some? {
      SchemeHasSlash(line, q);
    }
  }

  /** A login followed by a password that does not begin with "//" is no scheme. */
  lemma {:induction false} LoginReading(user: string, pwd: string, address: string, q: Parts)
    requires Plus(user, UserChar) && Plus(pwd, PasswordChar) && q.scheme.Some?
    requires Spells(AuthText(Some((user, pwd))) + address, q)
    ensures "//" <= pwd
  {
    var line := AuthText(Some((user, pwd))) + address;
    var rest, after := "//" + Remainder(q), pwd + "@" + address;
    assert line == q.scheme.value + ":" + rest;
    assert line == user + ":" + after;
    WordsAreUserChars(q.scheme.value);
    FirstColon(line, q.scheme.value, rest, user, after);
    SlashesInPassword(pwd, address, Remainder(q));
  }

  lemma {:induction false} SchemeHasSlash(raw: string, q: Parts)
    requires Spells(raw, q) && q.scheme.Some?
    ensures '/' in raw
  {
    assert '/' in SchemeText(q.scheme);
  }

  lemma {:induction false} WordsAreUserChars(s: string)
    requires All(s, Word)
    ensures All(s, UserChar)
  {
  }

  lemma {:induction false} SlashesInPassword(pwd: string, address: string, rest: string)
    requires Plus(pwd, PasswordChar) && pwd + "@" + address == "//" + rest
    ensures "//" <= pwd
  {
    var s := pwd + "@" + address;
    assert s[0] == '/' && s[1] == '/' && s[|pwd|] == '@';
    assert s[..|pwd|] == pwd;
  }

  /** A text splits in one way at its first colon. */
  lemma {:induction false} FirstColon(line: string, a: string, x: string, b: string, y: string)
    requires line == a + ":" + x && line == b + ":" + y
    requires All(a, UserChar) && All(b, UserChar)
    ensures a == b && x == y
  {
    assert line[|a|] == ':' && line[|b|] == ':';
    assert line[..|a|] == a && line[..|b|] == b;
    NoColonBefore(line, a, |b|);
    NoColonBefore(line, b, |a|);
    assert x == line[|a| + 1..] && y == line[|b| + 1..];
  }

  lemma {:induction false} NoColonBefore(line: string, a: string, k: nat)
    requires k < |line| && |a| <= |line| && line[..|a|] == a && All(a, UserChar) && line[k] == ':'
    ensures |a| <= k
  {
    assert forall i :: 0 <= i < |a| ==> line[..|a|][i] == line[i] && In(a[i], UserChar);
  }

  /** Without a user or without a password, missing or empty, no credentials are printed. */
  lemma {:induction false} NoEmptyCredentials(p: Proxy)
    requires p.username == None || p.username == Some("") || p.password == None || p.password == Some("")
    ensures Print(p) == Print(p.(username := None, password := None))
  {
  }

  /** Printed URLs, by example. */
  lemma {:induction false} PrintedUrls()
    ensures Print(Proxy("socks5", "10.0.0.7", 80, Some("u"), Some("p:q"))) == "socks5://u:p:q@10.0.0.7:80"
    ensures Print(Proxy("http", "host", 7, None, None)) == "http://host:7"
  {
    assert Decimal(8) == "8" && Decimal(80) == Decimal(8) + "0";
    assert Print(Proxy("http", "host", 7, None, None)) == "http" + "://" + "" + "host" + ":" + "7";
  }
}
