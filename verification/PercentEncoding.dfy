/** Canonical percent-encoding of one URL component (_canonical_component in
    backend/app/modules/policies/normalize.py): a regular-expression substitution over the
    escapes, then urllib.parse.quote. Compare sections 2.1, 2.3, 6.2.2.1 and 6.2.2.2 of RFC 3986. */
module PercentEncoding {
  import opened Text
  import opened Wrappers

  type Byte = b: int | 0 <= b < 256

  // ---------- Characters ----------

  predicate Unreserved(c: char) {
    'A' <= c <= 'Z' || 'a' <= c <= 'z' || '0' <= c <= '9' || c == '-' || c == '.' || c == '_' || c == '~'
  }

  function HexValue(c: char): (v: Option<int>)
    ensures v.Some? ==> 0 <= v.value < 16 && Unreserved(c) && c != '%'
  {
    if '0' <= c <= '9' then Some(c as int - '0' as int)
    else if 'a' <= c <= 'f' then Some(c as int - 'a' as int + 10)
    else if 'A' <= c <= 'F' then Some(c as int - 'A' as int + 10)
    else None
  }

  predicate Hex(c: char) {
    HexValue(c).Some?
  }

  function Upper(c: char): char {
    if 'a' <= c <= 'f' then (c as int - 32) as char else c
  }

  function HexDigit(v: int): (c: char)
    requires 0 <= v < 16
    ensures HexValue(c) == Some(v) && Upper(c) == c
  {
    if v < 10 then ('0' as int + v) as char else ('A' as int + v - 10) as char
  }

  function ByteOf(c: char, d: char): Byte
    requires Hex(c) && Hex(d)
  {
    16 * HexValue(c).value + HexValue(d).value
  }

  // UTF-8, as in section 3 of RFC 3629.
  function Utf8(c: char): (bs: seq<Byte>)
    ensures bs != []
  {
    var n := c as int;
    if n < 0x80 then [n]
    else if n < 0x800 then [0xC0 + n / 64, 0x80 + n % 64]
    else if n < 0x10000 then [0xE0 + n / 4096, 0x80 + n / 64 % 64, 0x80 + n % 64]
    else [0xF0 + n / 262144, 0x80 + n / 4096 % 64, 0x80 + n / 64 % 64, 0x80 + n % 64]
  }

  function Escape(b: Byte): string {
    ['%', HexDigit(b / 16), HexDigit(b % 16)]
  }

  function EscapeAll(bs: seq<Byte>): string {
    if bs == [] then "" else Escape(bs[0]) + EscapeAll(bs[1..])
  }

  // ---------- The code ----------

  predicate AtEscape(s: string) {
    |s| >= 3 && s[0] == '%' && Hex(s[1]) && Hex(s[2])
  }

  // replace() on one match
  function Replaced(c: char, d: char): string
    requires Hex(c) && Hex(d)
  {
    var character := ByteOf(c, d) as char;
    if Unreserved(character) then [character] else ['%', Upper(c), Upper(d)]
  }

  // _PERCENT_ESCAPE.sub(replace, s)
  function Substitute(s: string): string {
    if s == "" then ""
    else if AtEscape(s) then Replaced(s[1], s[2]) + Substitute(s[3..])
    else [s[0]] + Substitute(s[1..])
  }

  function QuotedChar(c: char, safe: set<char>): string {
    if Unreserved(c) || c in safe then [c] else EscapeAll(Utf8(c))
  }

  // urllib.parse.quote(s, safe)
  function Quote(s: string, safe: set<char>): string {
    if s == "" then "" else QuotedChar(s[0], safe) + Quote(s[1..], safe)
  }

  function Canonical(s: string, safe: set<char>): string {
    Quote(Substitute(s), safe + {'%'})
  }

  const PATH_SAFE: set<char> :=
    {'/', '-', '.', '_', '~', '!', '$', '&', '\'', '(', ')', '*', '+', ',', ';', '=', ':', '@'}

  // ---------- What a component says ----------

  // An escaped byte, or a character standing for itself. A '%' that begins no escape is a literal.
  datatype Token = Literal(c: char) | Escaped(b: Byte)

  function Parse(s: string): seq<Token> {
    if s == "" then []
    else if AtEscape(s) then [Escaped(ByteOf(s[1], s[2]))] + Parse(s[3..])
    else [Literal(s[0])] + Parse(s[1..])
  }

  function Shown(t: Token): string {
    match t
    case Literal(c) => [c]
    case Escaped(b) => Escape(b)
  }

  function Render(ts: seq<Token>): string {
    if ts == [] then "" else Shown(ts[0]) + Render(ts[1..])
  }

  function EscapedAll(bs: seq<Byte>): seq<Token> {
    seq(|bs|, i requires 0 <= i < |bs| => Escaped(bs[i]))
  }

  // The canonical spelling of one token: unreserved characters bare, others escaped unless safe.
  function Settled(t: Token, safe: set<char>): seq<Token> {
    match t
    case Escaped(b) => if Unreserved(b as char) then [Literal(b as char)] else [t]
    case Literal(c) => if Unreserved(c) || c in safe || c == '%' then [t] else EscapedAll(Utf8(c))
  }

  function SettledAll(ts: seq<Token>, safe: set<char>): seq<Token> {
    if ts == [] then [] else Settled(ts[0], safe) + SettledAll(ts[1..], safe)
  }

  // The octets a component stands for, each with whether it is a bare reserved character: such a
  // character may act as a delimiter, and its escape may not (section 2.2 of RFC 3986).
  datatype Octet = Octet(value: Byte, bare: bool)

  function Data(bs: seq<Byte>): seq<Octet> {
    seq(|bs|, i requires 0 <= i < |bs| => Octet(bs[i], false))
  }

  predicate Ascii(safe: set<char>) {
    forall c | c in safe :: c < 128 as char
  }

  function OctetsOf(t: Token, safe: set<char>): seq<Octet>
    requires Ascii(safe)
  {
    match t
    case Escaped(b) => [Octet(b, false)]
    case Literal(c) => if c in safe && !Unreserved(c) then [Octet(c as int, true)] else Data(Utf8(c))
  }

  function Octets(ts: seq<Token>, safe: set<char>): seq<Octet>
    requires Ascii(safe)
  {
    if ts == [] then [] else OctetsOf(ts[0], safe) + Octets(ts[1..], safe)
  }

  // Every '%' begins an escape.
  predicate WellFormed(s: string) {
    forall i | 0 <= i < |s| && s[i] == '%' :: AtEscape(s[i..])
  }

  // ---------- Reading and writing tokens ----------

  lemma EscapeOfByte(c: char, d: char)
    requires Hex(c) && Hex(d)
    ensures Escape(ByteOf(c, d)) == ['%', Upper(c), Upper(d)]
  {
    assert ByteOf(c, d) / 16 == HexValue(c).value && ByteOf(c, d) % 16 == HexValue(d).value;
  }

  lemma ByteOfEscape(b: Byte)
    ensures AtEscape(Escape(b)) && ByteOf(Escape(b)[1], Escape(b)[2]) == b
  {
  }

  lemma {:induction false} RenderAppend(a: seq<Token>, b: seq<Token>)
    ensures Render(a + b) == Render(a) + Render(b)
  {
    if a == [] {
      assert a + b == b;
    } else {
      assert (a + b)[1..] == a[1..] + b;
      RenderAppend(a[1..], b);
    }
  }

  lemma {:induction false} QuoteAppend(a: string, b: string, safe: set<char>)
    ensures Quote(a + b, safe) == Quote(a, safe) + Quote(b, safe)
  {
    if a == "" {
      assert a + b == b;
    } else {
      assert (a + b)[1..] == a[1..] + b;
      QuoteAppend(a[1..], b, safe);
    }
  }

  lemma {:induction false} QuotePlain(s: string, safe: set<char>)
    requires forall c | c in s :: Unreserved(c) || c in safe
    ensures Quote(s, safe) == s
  {
    if s != "" { QuotePlain(s[1..], safe); }
  }

  lemma {:induction false} RenderEscapes(bs: seq<Byte>)
    ensures Render(EscapedAll(bs)) == EscapeAll(bs)
  {
    if bs != [] {
      assert EscapedAll(bs)[1..] == EscapedAll(bs[1..]);
      RenderEscapes(bs[1..]);
    }
  }

  lemma QuotedEscape(c: char, d: char, safe: set<char>)
    requires Hex(c) && Hex(d)
    ensures Quote(Replaced(c, d), safe + {'%'}) == Render(Settled(Escaped(ByteOf(c, d)), safe))
  {
    EscapeOfByte(c, d);
    var r := Replaced(c, d);
    assert Hex(Upper(c)) && Hex(Upper(d));
    QuotePlain(r, safe + {'%'});
    assert Render(Settled(Escaped(ByteOf(c, d)), safe)) == r;
  }

  lemma QuotedLiteral(c: char, safe: set<char>)
    ensures QuotedChar(c, safe + {'%'}) == Render(Settled(Literal(c), safe))
  {
    RenderEscapes(Utf8(c));
  }

  // Substitution and quoting together settle token by token, on any component.
  lemma {:induction false} CanonicalSettles(s: string, safe: set<char>)
    ensures Canonical(s, safe) == Render(SettledAll(Parse(s), safe))
  {
    if s != "" {
      var ts := Parse(s);
      if AtEscape(s) {
        CanonicalSettles(s[3..], safe);
        QuoteAppend(Replaced(s[1], s[2]), Substitute(s[3..]), safe + {'%'});
        QuotedEscape(s[1], s[2], safe);
        assert ts[1..] == Parse(s[3..]);
      } else {
        CanonicalSettles(s[1..], safe);
        QuoteAppend([s[0]], Substitute(s[1..]), safe + {'%'});
        QuotedLiteral(s[0], safe);
        assert ts[1..] == Parse(s[1..]);
      }
      RenderAppend(Settled(ts[0], safe), SettledAll(ts[1..], safe));
    }
  }

  lemma {:induction false} ParseOfRender(ts: seq<Token>)
    requires Literal('%') !in ts
    ensures Parse(Render(ts)) == ts
  {
    if ts != [] {
      var rest := Render(ts[1..]);
      ParseOfRender(ts[1..]);
      assert ts[0] in ts;
      match ts[0]
      case Literal(c) =>
        assert ([c] + rest)[1..] == rest;
      case Escaped(b) =>
        ByteOfEscape(b);
        assert (Escape(b) + rest)[3..] == rest;
    }
  }

  // ---------- What settling keeps ----------

  predicate IsSettled(t: Token, safe: set<char>) {
    match t
    case Escaped(b) => !Unreserved(b as char)
    case Literal(c) => c != '%' && (Unreserved(c) || c in safe)
  }

  lemma SettledToken(t: Token, safe: set<char>)
    requires t != Literal('%')
    ensures forall u | u in Settled(t, safe) :: IsSettled(u, safe)
  {
  }

  lemma {:induction false} SettledTokens(ts: seq<Token>, safe: set<char>)
    requires Literal('%') !in ts
    ensures forall u | u in SettledAll(ts, safe) :: IsSettled(u, safe)
  {
    if ts != [] {
      assert ts[0] in ts;
      SettledToken(ts[0], safe);
      SettledTokens(ts[1..], safe);
    }
  }

  lemma {:induction false} SettledStays(ts: seq<Token>, safe: set<char>)
    requires forall t | t in ts :: IsSettled(t, safe)
    ensures SettledAll(ts, safe) == ts
  {
    if ts != [] {
      assert ts[0] in ts;
      SettledStays(ts[1..], safe);
    }
  }

  lemma {:induction false} OctetsAppend(a: seq<Token>, b: seq<Token>, safe: set<char>)
    requires Ascii(safe)
    ensures Octets(a + b, safe) == Octets(a, safe) + Octets(b, safe)
  {
    if a == [] {
      assert a + b == b;
    } else {
      assert (a + b)[1..] == a[1..] + b;
      OctetsAppend(a[1..], b, safe);
    }
  }

  lemma {:induction false} OctetsOfEscapes(bs: seq<Byte>, safe: set<char>)
    requires Ascii(safe)
    ensures Octets(EscapedAll(bs), safe) == Data(bs)
  {
    if bs != [] {
      assert EscapedAll(bs)[1..] == EscapedAll(bs[1..]);
      OctetsOfEscapes(bs[1..], safe);
      assert Data(bs) == [Octet(bs[0], false)] + Data(bs[1..]);
    }
  }

  lemma SettledKeepsOctets(t: Token, safe: set<char>)
    requires Ascii(safe)
    ensures Octets(Settled(t, safe), safe) == OctetsOf(t, safe)
  {
    match t
    case Escaped(b) =>
      if Unreserved(b as char) { assert Data(Utf8(b as char)) == [Octet(b, false)]; }
    case Literal(c) => OctetsOfEscapes(Utf8(c), safe);
  }

  lemma {:induction false} SettlingKeepsOctets(ts: seq<Token>, safe: set<char>)
    requires Ascii(safe)
    ensures Octets(SettledAll(ts, safe), safe) == Octets(ts, safe)
  {
    if ts != [] {
      SettlingKeepsOctets(ts[1..], safe);
      SettledKeepsOctets(ts[0], safe);
      OctetsAppend(Settled(ts[0], safe), SettledAll(ts[1..], safe), safe);
    }
  }

  lemma OneOctet(t: Token, safe: set<char>)
    requires Ascii(safe) && IsSettled(t, safe)
    ensures |OctetsOf(t, safe)| == 1
    ensures OctetsOf(t, safe)[0] == match t case Escaped(b) => Octet(b, false)
                                            case Literal(c) => Octet(c as int % 256, !Unreserved(c))
    ensures t.Literal? ==> t.c < 128 as char
  {
  }

  lemma {:induction false} SettledByOctets(ts: seq<Token>, us: seq<Token>, safe: set<char>)
    requires Ascii(safe)
    requires forall t | t in ts :: IsSettled(t, safe)
    requires forall u | u in us :: IsSettled(u, safe)
    requires Octets(ts, safe) == Octets(us, safe)
    ensures ts == us
  {
    if ts != [] { assert ts[0] in ts; OneOctet(ts[0], safe); }
    if us != [] { assert us[0] in us; OneOctet(us[0], safe); }
    if ts != [] && us != [] {
      assert Octets(ts, safe)[0] == OctetsOf(ts[0], safe)[0] && Octets(ts, safe)[1..] == Octets(ts[1..], safe);
      assert Octets(us, safe)[0] == OctetsOf(us[0], safe)[0] && Octets(us, safe)[1..] == Octets(us[1..], safe);
      SettledByOctets(ts[1..], us[1..], safe);
    }
  }

  // ---------- Well-formed components ----------

  // Past its first token of n characters a component is well-formed as far as the rest is.
  lemma WellFormedRest(s: string, n: nat)
    requires s != "" && n == (if AtEscape(s) then 3 else 1) && WellFormed(s)
    ensures WellFormed(s[n..]) && (s[0] == '%' ==> AtEscape(s))
  {
    forall i | 0 <= i < |s| - n && s[n..][i] == '%' ensures AtEscape(s[n..][i..]) {
      assert s[n + i] == '%' && s[n..][i..] == s[n + i..];
    }
    assert s[0..] == s;
  }

  lemma WellFormedAll(s: string, n: nat)
    requires s != "" && n == (if AtEscape(s) then 3 else 1)
    requires WellFormed(s[n..]) && (s[0] == '%' ==> AtEscape(s))
    ensures WellFormed(s)
  {
    forall i | 0 <= i < |s| && s[i] == '%' ensures AtEscape(s[i..]) {
      if i == 0 {
        assert s[0..] == s;
      } else {
        assert i >= n && s[n..][i - n] == '%' && s[n..][i - n..] == s[i..];
      }
    }
  }

  lemma {:induction false} WellFormedParses(s: string)
    ensures WellFormed(s) <==> Literal('%') !in Parse(s)
  {
    if s != "" {
      var n := if AtEscape(s) then 3 else 1;
      WellFormedParses(s[n..]);
      if WellFormed(s) { WellFormedRest(s, n); }
      if WellFormed(s[n..]) && (s[0] == '%' ==> AtEscape(s)) { WellFormedAll(s, n); }
    }
  }

  // The canonical form says the same tokens, settled.
  lemma CanonicalParses(s: string, safe: set<char>)
    requires WellFormed(s)
    ensures Parse(Canonical(s, safe)) == SettledAll(Parse(s), safe)
    ensures WellFormed(Canonical(s, safe))
    ensures forall t | t in Parse(Canonical(s, safe)) :: IsSettled(t, safe)
  {
    var ts := SettledAll(Parse(s), safe);
    WellFormedParses(s);
    SettledTokens(Parse(s), safe);
    assert Literal('%') !in ts;
    CanonicalSettles(s, safe);
    ParseOfRender(ts);
    WellFormedParses(Canonical(s, safe));
  }

  // On well-formed components the canonical form is a fixed point.
  lemma CanonicalIdempotent(s: string, safe: set<char>)
    requires WellFormed(s)
    ensures Canonical(Canonical(s, safe), safe) == Canonical(s, safe)
  {
    CanonicalParses(s, safe);
    SettledStays(SettledAll(Parse(s), safe), safe);
    CanonicalSettles(Canonical(s, safe), safe);
    CanonicalSettles(s, safe);
  }

  // Two well-formed components have one canonical form exactly when they stand for the same octets
  // with the same ones bare; so nothing is lost and no two meanings are merged.
  lemma SameCanonicalExact(s: string, t: string, safe: set<char>)
    requires WellFormed(s) && WellFormed(t) && Ascii(safe)
    ensures Canonical(s, safe) == Canonical(t, safe) <==> Octets(Parse(s), safe) == Octets(Parse(t), safe)
    ensures Octets(Parse(Canonical(s, safe)), safe) == Octets(Parse(s), safe)
  {
    CanonicalParses(s, safe);
    CanonicalParses(t, safe);
    SettlingKeepsOctets(Parse(s), safe);
    SettlingKeepsOctets(Parse(t), safe);
    CanonicalSettles(s, safe);
    CanonicalSettles(t, safe);
    if Octets(Parse(s), safe) == Octets(Parse(t), safe) {
      SettledByOctets(SettledAll(Parse(s), safe), SettledAll(Parse(t), safe), safe);
    }
  }

  lemma {:induction false} SettledRender(ts: seq<Token>, safe: set<char>, i: nat)
    requires forall t | t in ts :: IsSettled(t, safe)
    requires i < |Render(ts)|
    ensures var r := Render(ts);
            if r[i] == '%'
            then i + 2 < |r| && AtEscape(r[i..]) && Upper(r[i + 1]) == r[i + 1] && Upper(r[i + 2]) == r[i + 2]
                 && !Unreserved(ByteOf(r[i + 1], r[i + 2]) as char)
            else Unreserved(r[i]) || r[i] in safe
  {
    var first, rest := Shown(ts[0]), Render(ts[1..]);
    assert ts[0] in ts;
    if i >= |first| {
      SettledRender(ts[1..], safe, i - |first|);
      assert Render(ts)[i..] == rest[i - |first|..];
    } else if ts[0].Escaped? {
      ByteOfEscape(ts[0].b);
    }
  }

  // What the canonical form looks like: every '%' begins an upper-case escape of an octet that may
  // not stand bare, and every other character is unreserved or safe.
  lemma CanonicalShape(s: string, safe: set<char>, i: nat)
    requires WellFormed(s) && i < |Canonical(s, safe)|
    ensures var r := Canonical(s, safe);
            if r[i] == '%'
            then i + 2 < |r| && AtEscape(r[i..]) && Upper(r[i + 1]) == r[i + 1] && Upper(r[i + 2]) == r[i + 2]
                 && !Unreserved(ByteOf(r[i + 1], r[i + 2]) as char)
            else Unreserved(r[i]) || r[i] in safe
  {
    WellFormedParses(s);
    CanonicalSettles(s, safe);
    SettledTokens(Parse(s), safe);
    SettledRender(SettledAll(Parse(s), safe), safe, i);
  }

  // ---------- Malformed components ----------

  // A hexadecimal digit, bare or escaped.
  function DigitOf(t: Token): (c: Option<char>)
    ensures c.Some? ==> Hex(c.value)
  {
    match t
    case Literal(c) => if Hex(c) then Some(c) else None
    case Escaped(b) => if Hex(b as char) then Some(b as char) else None
  }

  // At the head of a component, a stray '%' that two escaped or bare digits would turn into an
  // escape, and one that is not in its final spelling.
  predicate CapturesHere(ts: seq<Token>) {
    && |ts| >= 3 && ts[0] == Literal('%') && DigitOf(ts[1]).Some? && DigitOf(ts[2]).Some?
    && var c, d := DigitOf(ts[1]).value, DigitOf(ts[2]).value;
    Unreserved(ByteOf(c, d) as char) || Upper(c) != c || Upper(d) != d
  }

  predicate Captures(ts: seq<Token>) {
    ts != [] && (CapturesHere(ts) || Captures(ts[1..]))
  }

  predicate Plain(s: string, safe: set<char>) {
    forall c | c in s :: Unreserved(c) || c in safe || c == '%'
  }

  function Spelled(ts: seq<Token>, safe: set<char>): string {
    Render(SettledAll(ts, safe))
  }

  lemma {:induction false} PlainEscapes(bs: seq<Byte>, safe: set<char>)
    ensures Plain(EscapeAll(bs), safe)
  {
    if bs != [] { PlainEscapes(bs[1..], safe); }
  }

  lemma SpelledCons(ts: seq<Token>, safe: set<char>)
    requires ts != []
    ensures Spelled(ts, safe) == Render(Settled(ts[0], safe)) + Spelled(ts[1..], safe)
  {
    RenderAppend(Settled(ts[0], safe), SettledAll(ts[1..], safe));
  }

  // The spelling of one token: a plain character, or one or more escapes.
  lemma SpelledToken(t: Token, safe: set<char>)
    ensures var r := Render(Settled(t, safe));
            && Plain(r, safe) && r != ""
            && (DigitOf(t).Some? ==> r == [DigitOf(t).value])
            && (DigitOf(t).None? ==> !Hex(r[0]))
  {
    match t
    case Escaped(b) =>
      PlainEscapes([b], safe);
      assert EscapeAll([b]) == Escape(b);
      assert Render([t]) == Escape(b);
    case Literal(c) =>
      RenderEscapes(Utf8(c));
      PlainEscapes(Utf8(c), safe);
  }

  lemma {:induction false} SpelledPlain(ts: seq<Token>, safe: set<char>)
    ensures Plain(Spelled(ts, safe), safe)
  {
    if ts != [] {
      SpelledCons(ts, safe);
      SpelledToken(ts[0], safe);
      SpelledPlain(ts[1..], safe);
    }
  }

  lemma {:induction false} SubstitutePlain(s: string, safe: set<char>)
    requires Plain(s, safe)
    ensures Plain(Substitute(s), safe) && |Substitute(s)| <= |s|
  {
    if s != "" {
      if AtEscape(s) {
        SubstitutePlain(s[3..], safe);
        assert Hex(Upper(s[1])) && Hex(Upper(s[2]));
      } else {
        SubstitutePlain(s[1..], safe);
      }
    }
  }

  lemma {:induction false} SubstituteEscapes(bs: seq<Byte>, rest: string)
    requires forall i | 0 <= i < |bs| :: !Unreserved(bs[i] as char)
    ensures Substitute(EscapeAll(bs) + rest) == EscapeAll(bs) + Substitute(rest)
  {
    if bs == [] {
      assert EscapeAll(bs) + rest == rest;
    } else {
      var first, others := Escape(bs[0]), EscapeAll(bs[1..]);
      SubstituteEscapes(bs[1..], rest);
      SubstituteEscape(bs[0], others + rest);
      Associative(first, others, rest);
      Associative(first, others, Substitute(rest));
    }
  }

  lemma SubstituteEscape(b: Byte, rest: string)
    requires !Unreserved(b as char)
    ensures Substitute(Escape(b) + rest) == Escape(b) + Substitute(rest)
  {
    ByteOfEscape(b);
    assert (Escape(b) + rest)[3..] == rest;
  }

  lemma SubstituteLiteral(c: char, rest: string)
    requires c != '%'
    ensures Substitute([c] + rest) == [c] + Substitute(rest)
  {
    assert ([c] + rest)[1..] == rest;
  }

  // Away from stray '%'s a second substitution passes over the spelling of a token.
  lemma SubstituteToken(t: Token, rest: string, safe: set<char>)
    requires t != Literal('%')
    ensures Substitute(Render(Settled(t, safe)) + rest) == Render(Settled(t, safe)) + Substitute(rest)
  {
    match t
    case Escaped(b) =>
      if Unreserved(b as char) {
        assert Render([Literal(b as char)]) == [b as char];
        SubstituteLiteral(b as char, rest);
      } else {
        assert Render([t]) == Escape(b);
        SubstituteEscape(b, rest);
      }
    case Literal(c) =>
      if Unreserved(c) || c in safe {
        assert Render([t]) == [c];
        SubstituteLiteral(c, rest);
      } else {
        RenderEscapes(Utf8(c));
        SubstituteEscapes(Utf8(c), rest);
      }
  }

  // A spelling begins with a hexadecimal digit exactly when its first token is one.
  lemma DigitAhead(ts: seq<Token>, safe: set<char>)
    ensures var r := Spelled(ts, safe);
            && (r != "" && Hex(r[0]) <==> ts != [] && DigitOf(ts[0]).Some?)
            && (ts != [] && DigitOf(ts[0]).Some? ==> r == [DigitOf(ts[0]).value] + Spelled(ts[1..], safe))
  {
    if ts != [] {
      SpelledCons(ts, safe);
      SpelledToken(ts[0], safe);
    }
  }

  predicate DigitsFollow(ts: seq<Token>) {
    |ts| >= 3 && DigitOf(ts[1]).Some? && DigitOf(ts[2]).Some?
  }

  lemma DigitsAhead(ts: seq<Token>, safe: set<char>)
    ensures var r := Spelled(ts, safe);
            && (|r| >= 2 && Hex(r[0]) && Hex(r[1]) <==> |ts| >= 2 && DigitOf(ts[0]).Some? && DigitOf(ts[1]).Some?)
            && (|ts| >= 2 && DigitOf(ts[0]).Some? && DigitOf(ts[1]).Some? ==>
                  r == [DigitOf(ts[0]).value, DigitOf(ts[1]).value] + Spelled(ts[2..], safe))
  {
    DigitAhead(ts, safe);
    if ts != [] && DigitOf(ts[0]).Some? {
      var c, tail := DigitOf(ts[0]).value, Spelled(ts[1..], safe);
      DigitAhead(ts[1..], safe);
      SecondOf(c, tail);
      if |ts| >= 2 && DigitOf(ts[1]).Some? {
        assert ts[1..][1..] == ts[2..];
        TwoAhead(c, DigitOf(ts[1]).value, Spelled(ts[2..], safe));
      }
    }
  }

  lemma SecondOf(c: char, tail: string)
    ensures |[c] + tail| >= 2 <==> tail != ""
    ensures tail != "" ==> ([c] + tail)[1] == tail[0]
  {
  }

  lemma TwoAhead(c: char, d: char, rest: string)
    ensures [c] + ([d] + rest) == [c, d] + rest
  {
  }

  lemma StrayHead(ts: seq<Token>, safe: set<char>)
    requires ts != [] && ts[0] == Literal('%')
    ensures Spelled(ts, safe) == "%" + Spelled(ts[1..], safe)
  {
    SpelledCons(ts, safe);
    assert Render(Settled(ts[0], safe)) == "%";
  }

  lemma PercentAhead(tail: string)
    ensures AtEscape("%" + tail) <==> |tail| >= 2 && Hex(tail[0]) && Hex(tail[1])
  {
  }

  lemma ThreeAhead(c: char, d: char, rest: string)
    ensures "%" + ([c, d] + rest) == ['%', c, d] + rest
  {
  }

  // A stray '%' meets two hexadecimal digits in the spelling exactly when two digit tokens follow it.
  lemma StrayMeetsDigits(ts: seq<Token>, safe: set<char>)
    requires ts != [] && ts[0] == Literal('%')
    ensures AtEscape(Spelled(ts, safe)) <==> DigitsFollow(ts)
    ensures DigitsFollow(ts) ==>
              Spelled(ts, safe) == ['%', DigitOf(ts[1]).value, DigitOf(ts[2]).value] + Spelled(ts[3..], safe)
  {
    StrayHead(ts, safe);
    PercentAhead(Spelled(ts[1..], safe));
    DigitsAhead(ts[1..], safe);
    if DigitsFollow(ts) {
      assert ts[1..][2..] == ts[3..];
      ThreeAhead(DigitOf(ts[1]).value, DigitOf(ts[2]).value, Spelled(ts[3..], safe));
    }
  }

  lemma NothingCapturedHere(ts: seq<Token>)
    requires ts != [] && ts[0] != Literal('%')
    ensures Captures(ts) == Captures(ts[1..])
  {
  }

  lemma CapturesPastDigits(ts: seq<Token>)
    requires DigitsFollow(ts)
    ensures Captures(ts) <==> CapturesHere(ts) || Captures(ts[3..])
  {
    assert ts[1..][1..] == ts[2..] && ts[2..][1..] == ts[3..];
    NothingCapturedHere(ts[1..]);
    NothingCapturedHere(ts[2..]);
  }

  lemma SamePrefix(a: string, x: string, y: string)
    ensures a + x == a + y <==> x == y
  {
    if a + x == a + y { assert x == (a + x)[|a|..] == (a + y)[|a|..] == y; }
  }

  lemma TokenExact(ts: seq<Token>, safe: set<char>)
    requires ts != [] && ts[0] != Literal('%')
    requires Substitute(Spelled(ts[1..], safe)) == Spelled(ts[1..], safe) <==> !Captures(ts[1..])
    ensures Substitute(Spelled(ts, safe)) == Spelled(ts, safe) <==> !Captures(ts)
  {
    SpelledCons(ts, safe);
    SubstituteToken(ts[0], Spelled(ts[1..], safe), safe);
    SamePrefix(Render(Settled(ts[0], safe)), Substitute(Spelled(ts[1..], safe)), Spelled(ts[1..], safe));
    NothingCapturedHere(ts);
  }

  lemma StrayAlone(ts: seq<Token>, safe: set<char>)
    requires ts != [] && ts[0] == Literal('%') && !DigitsFollow(ts)
    requires Substitute(Spelled(ts[1..], safe)) == Spelled(ts[1..], safe) <==> !Captures(ts[1..])
    ensures Substitute(Spelled(ts, safe)) == Spelled(ts, safe) <==> !Captures(ts)
  {
    StrayHead(ts, safe);
    StrayMeetsDigits(ts, safe);
    assert ("%" + Spelled(ts[1..], safe))[1..] == Spelled(ts[1..], safe);
  }

  lemma ReplacedAgain(c: char, d: char, rest: string)
    requires Hex(c) && Hex(d) && |Substitute(rest)| <= |rest|
    ensures Substitute(['%', c, d] + rest) == ['%', c, d] + rest
            <==> !Unreserved(ByteOf(c, d) as char) && Upper(c) == c && Upper(d) == d && Substitute(rest) == rest
  {
    var r := ['%', c, d] + rest;
    assert r[3..] == rest;
    var r' := Replaced(c, d) + Substitute(rest);
    assert Substitute(r) == r';
    if Unreserved(ByteOf(c, d) as char) {
      assert |r'| < |r|;
    } else {
      assert r'[1] == Upper(c) && r'[2] == Upper(d) && r'[3..] == Substitute(rest);
    }
  }

  lemma StrayWithDigits(ts: seq<Token>, safe: set<char>)
    requires ts != [] && ts[0] == Literal('%') && DigitsFollow(ts)
    requires Substitute(Spelled(ts[3..], safe)) == Spelled(ts[3..], safe) <==> !Captures(ts[3..])
    ensures Substitute(Spelled(ts, safe)) == Spelled(ts, safe) <==> !Captures(ts)
  {
    StrayMeetsDigits(ts, safe);
    SpelledPlain(ts[3..], safe);
    SubstitutePlain(Spelled(ts[3..], safe), safe);
    ReplacedAgain(DigitOf(ts[1]).value, DigitOf(ts[2]).value, Spelled(ts[3..], safe));
    CapturesPastDigits(ts);
  }

  lemma {:induction false} SubstituteExact(ts: seq<Token>, safe: set<char>)
    ensures Substitute(Spelled(ts, safe)) == Spelled(ts, safe) <==> !Captures(ts)
    decreases |ts|
  {
    if ts != [] {
      if ts[0] != Literal('%') {
        SubstituteExact(ts[1..], safe);
        TokenExact(ts, safe);
      } else if DigitsFollow(ts) {
        SubstituteExact(ts[3..], safe);
        StrayWithDigits(ts, safe);
      } else {
        SubstituteExact(ts[1..], safe);
        StrayAlone(ts, safe);
      }
    }
  }

  // On any component, the canonical form is a fixed point exactly when no stray '%' captures two
  // digits that follow it in bare or escaped form.
  lemma IdempotentExact(s: string, safe: set<char>)
    ensures Canonical(Canonical(s, safe), safe) == Canonical(s, safe) <==> !Captures(Parse(s))
  {
    var ts := Parse(s);
    CanonicalSettles(s, safe);
    SpelledPlain(ts, safe);
    SubstitutePlain(Spelled(ts, safe), safe);
    QuotePlain(Substitute(Spelled(ts, safe)), safe + {'%'});
    SubstituteExact(ts, safe);
  }

  // "%%341" becomes "%41", and that becomes "A".
  lemma CanonicalTwiceDiffers()
    ensures Canonical("%%341", PATH_SAFE) == "%41"
    ensures Canonical("%41", PATH_SAFE) == "A"
    ensures !WellFormed("%%341")
  {
    var s := "%%341";
    assert s[1..] == "%341" && s[1..][3..] == "1" && "1"[1..] == "";
    assert Substitute("1") == "1";
    assert Substitute("%341") == "4" + "1";
    assert Substitute(s) == "%41";
    QuotePlain("%41", PATH_SAFE + {'%'});
    assert "%41"[3..] == "";
    assert Substitute("%41") == "A";
    QuotePlain("A", PATH_SAFE + {'%'});
    assert s[0..] == s;
  }

  // ---------- Single characters ----------

  const UPPER_HEX := "0123456789ABCDEF"

  // Digits, letters, and '-', '.', '_', '~' (section 2.3 of RFC 3986), by code.
  predicate UnreservedCode(n: int) {
    0x30 <= n <= 0x39 || 0x41 <= n <= 0x5A || 0x61 <= n <= 0x7A || n in {0x2D, 0x2E, 0x5F, 0x7E}
  }

  // What one ASCII character of a path becomes: it stays if RFC 3986 lets it stand in a path, as a
  // percent sign does, and is escaped otherwise.
  lemma PathCharacter(c: char)
    requires c < 128 as char
    ensures Canonical([c], PATH_SAFE)
            == if UnreservedCode(c as int) || c in "/!$&'()*+,;=:@%" then [c]
               else ['%', UPPER_HEX[c as int / 16], UPPER_HEX[c as int % 16]]
  {
    assert UnreservedCode(c as int) <==> Unreserved(c);
    QuoteOne(c, PATH_SAFE + {'%'});
    EscapeAllOne(c as int);
    HexExact(c as int / 16);
    HexExact(c as int % 16);
    assert c in PATH_SAFE + {'%'} <==> c in "/-._~!$&'()*+,;=:@%";
  }

  lemma QuoteOne(c: char, safe: set<char>)
    ensures Substitute([c]) == [c] && Quote([c], safe) == QuotedChar(c, safe)
  {
    assert Substitute([c][1..]) == "" && Quote([c][1..], safe) == "";
  }

  lemma EscapeAllOne(b: Byte)
    ensures EscapeAll([b]) == Escape(b)
  {
    assert EscapeAll([b][1..]) == "";
  }

  lemma HexExact(v: int)
    requires 0 <= v < 16
    ensures HexDigit(v) == UPPER_HEX[v]
  {
  }

  // An integer from its digits to the base 64.
  lemma Sextets(n: nat)
    ensures n == n / 64 * 64 + n % 64
    ensures n == n / 4096 * 4096 + n / 64 % 64 * 64 + n % 64
    ensures n == n / 262144 * 262144 + n / 4096 % 64 * 4096 + n / 64 % 64 * 64 + n % 64
  {
    assert n / 4096 == n / 64 / 64;
    assert n / 262144 == n / 4096 / 64;
  }

  // The octets of a character, by the ranges of section 3 of RFC 3629: as few as will do, the first
  // one tells how many, and together they give the character back.
  lemma Utf8Exact(c: char)
    ensures var bs, n := Utf8(c), c as int;
            && |bs| == (if n < 0x80 then 1 else if n < 0x800 then 2 else if n < 0x10000 then 3 else 4)
            && (forall i | 1 <= i < |bs| :: 0x80 <= bs[i] < 0xC0)
            && n == match |bs|
                    case 1 => bs[0] as int
                    case 2 => (bs[0] as int - 0xC0) * 64 + (bs[1] as int - 0x80)
                    case 3 => (bs[0] as int - 0xE0) * 4096 + (bs[1] as int - 0x80) * 64 + (bs[2] as int - 0x80)
                    case _ => (bs[0] as int - 0xF0) * 262144 + (bs[1] as int - 0x80) * 4096 + (bs[2] as int - 0x80) * 64
                              + (bs[3] as int - 0x80)
  {
    Sextets(c as int);
  }
}
