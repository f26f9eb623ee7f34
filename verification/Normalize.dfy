/** Text normalisation and the content fingerprint (backend/app/modules/policies/normalize.py). */
module Normalize {
  import opened Text

  // ---------- str.split() and " ".join() ----------

  function WordLength(s: string): (n: nat)
    ensures n <= |s|
    ensures forall i | 0 <= i < n :: !IsSpace(s[i])
    ensures n < |s| ==> IsSpace(s[n])
  {
    if s == "" || IsSpace(s[0]) then 0 else 1 + WordLength(s[1..])
  }

  function Words(s: string): seq<string> {
    if s == "" then []
    else if IsSpace(s[0]) then Words(s[1..])
    else
      var n := WordLength(s);
      [s[..n]] + Words(s[n..])
  }

  function Join(words: seq<string>): string {
    if words == [] then ""
    else if |words| == 1 then words[0]
    else words[0] + " " + Join(words[1..])
  }

  function NormalizeText(s: string): string {
    Join(Words(s))
  }

  predicate Word(w: string) {
    w != "" && forall i | 0 <= i < |w| :: !IsSpace(w[i])
  }

  // Single spaces between words and no other whitespace.
  predicate Tidy(t: string) {
    && (forall i | 0 <= i < |t| && IsSpace(t[i]) ::
          t[i] == ' ' && 0 < i < |t| - 1 && !IsSpace(t[i - 1]) && !IsSpace(t[i + 1]))
  }

  lemma {:induction false} WordsAreWords(s: string)
    ensures forall w | w in Words(s) :: Word(w)
  {
    if s != "" {
      if IsSpace(s[0]) { WordsAreWords(s[1..]); } else { WordsAreWords(s[WordLength(s)..]); }
    }
  }

  lemma {:induction false} LengthOfWord(w: string, rest: string)
    requires forall i | 0 <= i < |w| :: !IsSpace(w[i])
    requires rest == "" || IsSpace(rest[0])
    ensures WordLength(w + rest) == |w|
  {
    if w == "" {
      assert w + rest == rest;
    } else {
      LengthOfWord(w[1..], rest);
      assert (w + rest)[1..] == w[1..] + rest;
    }
  }

  lemma WordThenSpace(w: string, tail: string)
    requires Word(w)
    ensures Words(w + (" " + tail)) == [w] + Words(tail)
  {
    var rest := " " + tail;
    LengthOfWord(w, rest);
    assert (w + rest)[|w|..] == rest && (w + rest)[..|w|] == w && rest[1..] == tail;
  }

  lemma OneWord(w: string)
    requires Word(w)
    ensures Words(w) == [w]
  {
    LengthOfWord(w, "");
    assert w + "" == w;
    assert w[..|w|] == w && w[|w|..] == "";
  }

  lemma {:induction false} WordsOfJoin(words: seq<string>)
    requires forall w | w in words :: Word(w)
    ensures Words(Join(words)) == words
  {
    if words != [] { assert words[0] in words; }
    if |words| == 1 {
      OneWord(words[0]);
    } else if words != [] {
      WordsOfJoin(words[1..]);
      WordThenSpace(words[0], Join(words[1..]));
      assert Join(words) == words[0] + (" " + Join(words[1..]));
    }
  }

  lemma {:induction false} JoinIsTidy(words: seq<string>)
    requires forall w | w in words :: Word(w)
    ensures Tidy(Join(words))
    ensures words != [] ==> Join(words) != "" && !IsSpace(Join(words)[0])
  {
    if |words| == 1 {
      assert words[0] in words;
    } else if words != [] {
      var w, tail := words[0], Join(words[1..]);
      assert w in words;
      JoinIsTidy(words[1..]);
      var t := w + " " + tail;
      forall i | 0 <= i < |t| && IsSpace(t[i])
        ensures t[i] == ' ' && 0 < i < |t| - 1 && !IsSpace(t[i - 1]) && !IsSpace(t[i + 1])
      {
        if i > |w| { assert t[i] == tail[i - |w| - 1]; }
      }
    }
  }

  lemma TidyTail(t: string, n: nat)
    requires Tidy(t) && n < |t| && IsSpace(t[n])
    ensures n + 1 < |t| && t[n] == ' ' && !IsSpace(t[n + 1]) && Tidy(t[n + 1..])
  {
    var tail := t[n + 1..];
    forall i | 0 <= i < |tail| && IsSpace(tail[i])
      ensures tail[i] == ' ' && 0 < i < |tail| - 1 && !IsSpace(tail[i - 1]) && !IsSpace(tail[i + 1])
    {
      assert IsSpace(t[n + 1 + i]);
    }
  }

  lemma FirstWord(t: string, n: nat, tail: string)
    requires Tidy(t) && t != "" && n == WordLength(t) < |t| && tail == t[n + 1..]
    ensures Words(t) == [t[..n]] + Words(tail)
  {
    assert t[n..][1..] == tail;
  }

  lemma {:induction false} TidyIsNormal(t: string)
    requires Tidy(t)
    ensures NormalizeText(t) == t
    decreases |t|
  {
    if t != "" {
      var n := WordLength(t);
      if n == |t| {
        assert t[..n] == t && t[n..] == "";
        assert Words(t) == [t];
      } else {
        var tail := t[n + 1..];
        TidyTail(t, n);
        TidyIsNormal(tail);
        FirstWord(t, n, tail);
        JoinedAgain(t, n, tail, Words(tail));
      }
    }
  }

  lemma JoinedAgain(t: string, n: nat, tail: string, words: seq<string>)
    requires n < |t| && t[n] == ' ' && tail == t[n + 1..] && tail != "" && Join(words) == tail
    ensures Join([t[..n]] + words) == t
  {
    JoinCons(t[..n], words);
    assert t == t[..n] + " " + tail;
  }

  lemma JoinCons(w: string, words: seq<string>)
    requires words != []
    ensures Join([w] + words) == w + " " + Join(words)
  {
    assert ([w] + words)[1..] == words;
  }

  // Normalising keeps the words, and what it returns are exactly the tidy texts: so it is
  // idempotent, and two texts normalise alike exactly when they have the same words.
  lemma NormalKeepsWords(s: string)
    ensures Words(NormalizeText(s)) == Words(s)
    ensures Tidy(NormalizeText(s))
    ensures NormalizeText(NormalizeText(s)) == NormalizeText(s)
  {
    WordsAreWords(s);
    WordsOfJoin(Words(s));
    JoinIsTidy(Words(s));
  }

  lemma NormalExactlyTidy(s: string)
    ensures NormalizeText(s) == s <==> Tidy(s)
  {
    NormalKeepsWords(s);
    if Tidy(s) { TidyIsNormal(s); }
  }

  // Blank text has no words; otherwise the first word ends where whitespace or the text does, and the
  // rest follows it after one space.
  lemma NormalFromWords(blank: string, word: string, rest: string)
    requires (forall i | 0 <= i < |blank| :: IsSpace(blank[i])) && Word(word) && (rest == "" || IsSpace(rest[0]))
    ensures Words(blank) == [] && NormalizeText(blank) == ""
    ensures Words(blank + word + rest) == [word] + Words(rest)
    ensures NormalizeText(blank + word + rest)
            == if NormalizeText(rest) == "" then word else word + " " + NormalizeText(rest)
  {
    BlankSkipped(blank, word + rest);
    BlankSkipped(blank, "");
    assert blank + (word + rest) == blank + word + rest && blank + "" == blank;
    LengthOfWord(word, rest);
    assert (word + rest)[..|word|] == word && (word + rest)[|word|..] == rest;
    WordsAreWords(rest);
    JoinIsTidy(Words(rest));
    if Words(rest) != [] { JoinCons(word, Words(rest)); }
  }

  lemma {:induction false} BlankSkipped(blank: string, s: string)
    requires forall i | 0 <= i < |blank| :: IsSpace(blank[i])
    ensures Words(blank + s) == Words(s)
  {
    if blank == "" {
      assert blank + s == s;
    } else {
      BlankSkipped(blank[1..], s);
      assert (blank + s)[1..] == blank[1..] + s;
    }
  }

  lemma SameNormalExact(s: string, t: string)
    ensures NormalizeText(s) == NormalizeText(t) <==> Words(s) == Words(t)
  {
    NormalKeepsWords(s);
    NormalKeepsWords(t);
  }

  // ---------- content_hash ----------

  // What content_hash feeds to SHA-256.
  function ContentText(title: string, body: string): string {
    NormalizeText(title) + "\n" + NormalizeText(body)
  }

  lemma FirstLine(a: string, b: string, c: string, d: string)
    requires '\n' !in a && '\n' !in b && a + "\n" + c == b + "\n" + d
    ensures a == b && c == d
  {
    var x, y := a + "\n" + c, b + "\n" + d;
    assert x[|a|] == '\n' && y[|b|] == '\n';
    assert forall i | 0 <= i < |a| :: x[i] == a[i] && a[i] in a;
    assert forall i | 0 <= i < |b| :: y[i] == b[i] && b[i] in b;
    assert x[..|a|] == a && y[..|b|] == b;
    assert x[|a| + 1..] == c && y[|b| + 1..] == d;
  }

  lemma TidyHasNoBreak(t: string)
    requires Tidy(t)
    ensures '\n' !in t
  {
    if '\n' in t {
      var i :| 0 <= i < |t| && t[i] == '\n';
      assert IsSpace(t[i]);
    }
  }

  // Two versions have the same fingerprint text exactly when title and body agree word for word:
  // a title never runs into a body.
  lemma ContentTextExact(title: string, body: string, title2: string, body2: string)
    ensures ContentText(title, body) == ContentText(title2, body2)
            <==> Words(title) == Words(title2) && Words(body) == Words(body2)
  {
    NormalKeepsWords(title);
    NormalKeepsWords(title2);
    TidyHasNoBreak(NormalizeText(title));
    TidyHasNoBreak(NormalizeText(title2));
    SameNormalExact(title, title2);
    SameNormalExact(body, body2);
    if ContentText(title, body) == ContentText(title2, body2) {
      FirstLine(NormalizeText(title), NormalizeText(title2), NormalizeText(body), NormalizeText(body2));
    }
  }
}
