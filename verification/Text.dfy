/** String operations the services lean on: whitespace as str.split() and str.strip() see it. */
module Text {
  import opened Wrappers

  predicate IsSpace(c: char) {
    || '\t' <= c <= '\r'
    || '\U{1C}' <= c <= ' '
    || c == '\U{85}' || c == '\U{A0}' || c == '\U{1680}'
    || '\U{2000}' <= c <= '\U{200A}'
    || c == '\U{2028}' || c == '\U{2029}' || c == '\U{202F}' || c == '\U{205F}' || c == '\U{3000}'
  }

  function StripLeft(s: string): string {
    if s != "" && IsSpace(s[0]) then StripLeft(s[1..]) else s
  }

  function StripRight(s: string): string {
    if s != "" && IsSpace(s[|s| - 1]) then StripRight(s[..|s| - 1]) else s
  }

  function Strip(s: string): string {
    StripRight(StripLeft(s))
  }

  // `value.strip() if value else None`
  function StripOptional(s: Option<string>): Option<string> {
    if s.None? || s.value == "" then None else Some(Strip(s.value))
  }

  // Python truth of an optional string.
  predicate Truthy(s: Option<string>) {
    s.Some? && s.value != ""
  }

  // A reason that says something, as the services demand of one after stripping it.
  predicate Stated(reason: Option<string>) {
    reason.Some? && Strip(reason.value) != ""
  }

  lemma {:induction false} StripLeftStops(s: string)
    ensures var r := StripLeft(s); r != "" ==> !IsSpace(r[0])
    ensures s != "" && !IsSpace(s[|s| - 1]) ==> StripLeft(s) != "" && !IsSpace(StripLeft(s)[|StripLeft(s)| - 1])
  {
    if s != "" && IsSpace(s[0]) { StripLeftStops(s[1..]); }
  }

  lemma {:induction false} StripRightStops(s: string)
    ensures var r := StripRight(s); r != "" ==> !IsSpace(r[|r| - 1])
    ensures s != "" && !IsSpace(s[0]) ==> StripRight(s) != "" && StripRight(s)[0] == s[0]
  {
    if s != "" && IsSpace(s[|s| - 1]) { StripRightStops(s[..|s| - 1]); }
  }

  // Stripping takes away whitespace at both ends, and nothing else.
  lemma StripExact(s: string) returns (left: string, right: string)
    ensures s == left + Strip(s) + right
    ensures forall i | 0 <= i < |left| :: IsSpace(left[i])
    ensures forall i | 0 <= i < |right| :: IsSpace(right[i])
    ensures Strip(s) != "" ==> !IsSpace(Strip(s)[0]) && !IsSpace(Strip(s)[|Strip(s)| - 1])
  {
    left := StripsLeft(s);
    right := StripsRight(StripLeft(s));
    StripLeftStops(s);
    StripRightStops(StripLeft(s));
    assert s == left + (Strip(s) + right);
  }

  lemma {:induction false} StripsLeft(s: string) returns (left: string)
    ensures s == left + StripLeft(s) && forall i | 0 <= i < |left| :: IsSpace(left[i])
  {
    if s != "" && IsSpace(s[0]) {
      var rest := StripsLeft(s[1..]);
      left := [s[0]] + rest;
      assert s == [s[0]] + s[1..];
    } else {
      left := "";
    }
  }

  lemma {:induction false} StripsRight(s: string) returns (right: string)
    ensures s == StripRight(s) + right && forall i | 0 <= i < |right| :: IsSpace(right[i])
  {
    if s != "" && IsSpace(s[|s| - 1]) {
      var rest := StripsRight(s[..|s| - 1]);
      right := rest + [s[|s| - 1]];
      assert s == s[..|s| - 1] + [s[|s| - 1]];
    } else {
      right := "";
    }
  }

  // The 29 characters of str.isspace().
  lemma SpacesExactly(c: char)
    ensures IsSpace(c) <==>
              c as int in {0x9, 0xA, 0xB, 0xC, 0xD, 0x1C, 0x1D, 0x1E, 0x1F, 0x20, 0x85, 0xA0, 0x1680, 0x2000, 0x2001, 0x2002,
                           0x2003, 0x2004, 0x2005, 0x2006, 0x2007, 0x2008, 0x2009, 0x200A, 0x2028, 0x2029, 0x202F, 0x205F, 0x3000}
  {
  }

  lemma StripTwice(s: string)
    ensures Strip(Strip(s)) == Strip(s)
  {
    StripLeftStops(s);
    StripRightStops(StripLeft(s));
  }

  // A stripped reason that is not empty is stated.
  lemma StrippedIsStated(s: Option<string>)
    ensures Truthy(StripOptional(s)) <==> Stated(StripOptional(s))
  {
    if s.Some? { StripTwice(s.value); }
  }

  // s[:n]
  function Prefix(s: string, n: nat): string {
    if |s| <= n then s else s[..n]
  }

  lemma Associative(a: string, b: string, c: string)
    ensures (a + b) + c == a + (b + c)
  {
  }
}
