/** Collision-free attachment file names (safe_attachment_filename in
    backend/app/modules/policies/files.py). Python's case folding of one character and its \w class
    are parameters, with the few facts about them that the proofs need. */
module AttachmentNames {
  import opened Wrappers
  import opened Text

  // ---------- Case folding ----------

  ghost predicate KeepsPlain(cf: char -> string) {
    forall c | PlainChar(c) :: cf(c) == [c]
  }

  // str.casefold()
  function Fold(s: string, cf: char -> string): string {
    if s == "" then "" else cf(s[0]) + Fold(s[1..], cf)
  }

  function FoldSet(names: seq<string>, cf: char -> string): set<string> {
    set name | name in names :: Fold(name, cf)
  }

  lemma FoldCons(s: string, cf: char -> string)
    requires s != ""
    ensures Fold(s, cf) == cf(s[0]) + Fold(s[1..], cf)
  {
  }

  lemma {:induction false} FoldAppend(a: string, b: string, cf: char -> string)
    ensures Fold(a + b, cf) == Fold(a, cf) + Fold(b, cf)
  {
    if a == "" {
      assert a + b == b;
    } else {
      FoldAppend(a[1..], b, cf);
      FoldCons(a + b, cf);
      assert (a + b)[1..] == a[1..] + b;
      Associative(cf(a[0]), Fold(a[1..], cf), Fold(b, cf));
    }
  }

  // ---------- Decimal numerals ----------

  function Decimal(n: nat): (s: string)
    ensures s != "" && forall i | 0 <= i < |s| :: '0' <= s[i] <= '9'
  {
    var digit := ('0' as int + n % 10) as char;
    if n < 10 then [digit] else Decimal(n / 10) + [digit]
  }

  lemma {:induction false} DecimalInjective(m: nat, n: nat)
    requires Decimal(m) == Decimal(n)
    ensures m == n
  {
    var a, b := Decimal(m), Decimal(n);
    assert a[|a| - 1] == b[|b| - 1];
    assert m % 10 == n % 10;
    if m >= 10 && n >= 10 {
      assert a[..|a| - 1] == Decimal(m / 10) && b[..|b| - 1] == Decimal(n / 10);
      DecimalInjective(m / 10, n / 10);
    }
  }

  predicate PlainChar(c: char) {
    '0' <= c <= '9' || c == ' ' || c == '(' || c == ')'
  }

  lemma {:induction false} FoldPlain(s: string, cf: char -> string)
    requires KeepsPlain(cf)
    requires forall i | 0 <= i < |s| :: PlainChar(s[i])
    ensures Fold(s, cf) == s
  {
    if s != "" { FoldPlain(s[1..], cf); }
  }

  // ---------- Names and extensions ----------

  function LastDot(s: string): (i: int)
    ensures -1 <= i < |s|
    ensures i >= 0 ==> s[i] == '.'
    ensures forall j | i < j < |s| :: s[j] != '.'
  {
    if s == "" then -1 else if s[|s| - 1] == '.' then |s| - 1 else LastDot(s[..|s| - 1])
  }

  // Path(name).suffix
  function Suffix(name: string): string {
    var i := LastDot(name);
    if 0 < i < |name| - 1 then name[i..] else ""
  }

  function Stem(name: string): string
  {
    if Suffix(name) == "" then name else name[..|name| - |Suffix(name)|]
  }

  lemma StemAndSuffix(name: string)
    ensures Stem(name) + Suffix(name) == name
    ensures name != "" ==> Stem(name) != "" && Stem(name)[0] == name[0]
  {
  }

  function Number(k: nat): string {
    if k == 0 then "" else " (" + Decimal(k + 1) + ")"
  }

  // The k-th name the loop tries: first the name itself, then "stem (2).suffix" and so on.
  function Candidate(name: string, k: nat): string {
    Stem(name) + Number(k) + Suffix(name)
  }

  predicate Taken(name: string, used: seq<string>, cf: char -> string, k: nat) {
    Fold(Candidate(name, k), cf) in FoldSet(used, cf)
  }

  // The first index from k on that is not taken, if one lies below the limit.
  function FirstFree(taken: nat -> bool, k: nat, limit: nat): (n: nat)
    requires k <= limit
    ensures k <= n <= limit && (forall j: nat | k <= j < n :: taken(j)) && (n < limit ==> !taken(n))
    decreases limit - k
  {
    if k < limit && taken(k) then FirstFree(taken, k + 1, limit) else k
  }

  function TakenBy(name: string, used: seq<string>, cf: char -> string): nat -> bool {
    (k: nat) => Taken(name, used, cf, k)
  }

  predicate AllBelow(taken: nat -> bool, k: nat) {
    forall j: nat | j < k :: taken(j)
  }

  lemma OneMore(taken: nat -> bool, k: nat)
    requires AllBelow(taken, k) && taken(k)
    ensures AllBelow(taken, k + 1)
  {
  }

  function FreeIndex(name: string, used: seq<string>, cf: char -> string): nat {
    FirstFree(TakenBy(name, used, cf), 0, |used|)
  }

  function Pick(name: string, used: seq<string>, cf: char -> string): string {
    Candidate(name, FreeIndex(name, used, cf))
  }

  // ---------- Candidates never repeat ----------

  lemma FoldThree(a: string, b: string, c: string, cf: char -> string)
    ensures Fold(a + b + c, cf) == Fold(a, cf) + Fold(b, cf) + Fold(c, cf)
  {
    FoldAppend(a + b, c, cf);
    FoldAppend(a, b, cf);
  }

  lemma NumberIsPlain(k: nat, cf: char -> string)
    requires KeepsPlain(cf)
    ensures Fold(Number(k), cf) == Number(k)
  {
    FoldPlain(Number(k), cf);
  }

  lemma SameMiddle(x: string, y: string, a: string, b: string)
    requires x + a + y == x + b + y
    ensures a == b
  {
    assert |a| == |b|;
    assert a == (x + a + y)[|x|..|x| + |a|] && b == (x + b + y)[|x|..|x| + |b|];
  }

  lemma NumbersDiffer(j: nat, k: nat)
    requires Number(j) == Number(k)
    ensures j == k
  {
    if j != 0 && k != 0 {
      assert Decimal(j + 1) == Number(j)[2..|Number(j)| - 1] && Decimal(k + 1) == Number(k)[2..|Number(k)| - 1];
      DecimalInjective(j + 1, k + 1);
    }
  }

  lemma CandidatesDiffer(name: string, cf: char -> string, j: nat, k: nat)
    requires KeepsPlain(cf) && Fold(Candidate(name, j), cf) == Fold(Candidate(name, k), cf)
    ensures j == k
  {
    FoldThree(Stem(name), Number(j), Suffix(name), cf);
    FoldThree(Stem(name), Number(k), Suffix(name), cf);
    NumberIsPlain(j, cf);
    NumberIsPlain(k, cf);
    SameMiddle(Fold(Stem(name), cf), Fold(Suffix(name), cf), Number(j), Number(k));
    NumbersDiffer(j, k);
  }

  // ---------- The pigeonhole ----------

  // The folded candidates up to the k-th.
  function Tried(name: string, cf: char -> string, k: nat): seq<string> {
    seq(k, j requires 0 <= j < k => Fold(Candidate(name, j), cf))
  }

  lemma {:induction false} DistinctFit(keys: seq<string>, taken: set<string>)
    requires forall i, j | 0 <= i < j < |keys| :: keys[i] != keys[j]
    requires forall i | 0 <= i < |keys| :: keys[i] in taken
    ensures |keys| <= |taken|
  {
    if keys != [] { DistinctFit(keys[1..], taken - {keys[0]}); }
  }

  lemma {:induction false} FoldSetCount(names: seq<string>, cf: char -> string)
    ensures |FoldSet(names, cf)| <= |names|
  {
    if names == [] {
      assert FoldSet(names, cf) == {};
    } else {
      FoldSetCount(names[1..], cf);
      assert FoldSet(names, cf) == FoldSet(names[1..], cf) + {Fold(names[0], cf)} by {
        assert names == [names[0]] + names[1..];
      }
    }
  }

  // Not all of the first |used| + 1 candidates are taken.
  lemma NotAllTaken(name: string, used: seq<string>, cf: char -> string, k: nat)
    requires KeepsPlain(cf)
    requires AllBelow(TakenBy(name, used, cf), k)
    ensures k <= |used|
  {
    var keys := Tried(name, cf, k);
    forall i, j | 0 <= i < j < k ensures keys[i] != keys[j] {
      if keys[i] == keys[j] { CandidatesDiffer(name, cf, i, j); }
    }
    forall i | 0 <= i < k ensures keys[i] in FoldSet(used, cf) {
      assert TakenBy(name, used, cf)(i);
    }
    DistinctFit(keys, FoldSet(used, cf));
    FoldSetCount(used, cf);
  }

  lemma SomeFree(name: string, used: seq<string>, cf: char -> string) returns (j: nat)
    requires KeepsPlain(cf)
    ensures j <= |used| && !Taken(name, used, cf, j)
  {
    if AllBelow(TakenBy(name, used, cf), |used| + 1) { NotAllTaken(name, used, cf, |used| + 1); }
    j :| j < |used| + 1 && !Taken(name, used, cf, j);
  }

  lemma FirstFreeIsFree(taken: nat -> bool, limit: nat, j: nat)
    requires j <= limit && !taken(j)
    ensures !taken(FirstFree(taken, 0, limit))
  {
  }

  // The chosen name is the first free candidate, and it is among the first |used| + 1.
  lemma PickIsFree(name: string, used: seq<string>, cf: char -> string)
    requires KeepsPlain(cf)
    ensures var n := FreeIndex(name, used, cf);
            n <= |used| && !Taken(name, used, cf, n) && forall j: nat | j < n :: Taken(name, used, cf, j)
  {
    var taken := TakenBy(name, used, cf);
    var j := SomeFree(name, used, cf);
    FirstFreeIsFree(taken, |used|, j);
    forall j: nat | j < FreeIndex(name, used, cf) ensures Taken(name, used, cf, j) {
      assert taken(j);
    }
  }

  // ---------- From a display name to a file name ----------

  // str.replace("\\", "/")
  function ForwardSlashes(s: string): string {
    seq(|s|, i requires 0 <= i < |s| => if s[i] == '\\' then '/' else s[i])
  }

  function LastSlash(p: string): (i: int)
    ensures -1 <= i < |p|
    ensures i >= 0 ==> p[i] == '/'
    ensures forall j | i < j < |p| :: p[j] != '/'
  {
    if p == "" then -1 else if p[|p| - 1] == '/' then |p| - 1 else LastSlash(p[..|p| - 1])
  }

  // PurePosixPath(p).name: the last component that is neither empty nor ".".
  function PathName(p: string): string
    decreases |p|
  {
    var i := LastSlash(p);
    var last := p[i + 1..];
    if last != "" && last != "." then last else if i >= 0 then PathName(p[..i]) else ""
  }

  // What \w has to do with the other characters of a name.
  ghost predicate WordClass(word: char -> bool) {
    && (forall c | 'a' <= c <= 'z' || '0' <= c <= '9' :: word(c))
    && word('_') && !word('/') && !word('\\') && !word('.')
    && (forall c | IsSpace(c) :: !word(c))
  }

  predicate Allowed(c: char, word: char -> bool) {
    word(c) || c == '.' || c == '(' || c == ')' || c == ' ' || c == '-'
  }

  function SkipUnsafe(s: string, word: char -> bool): (r: string)
    ensures |r| <= |s|
  {
    if s != "" && !Allowed(s[0], word) then SkipUnsafe(s[1..], word) else s
  }

  // _UNSAFE_FILENAME.sub("_", s): each run of other characters becomes one underscore.
  function Sanitised(s: string, word: char -> bool): string
    decreases |s|
  {
    if s == "" then ""
    else if Allowed(s[0], word) then [s[0]] + Sanitised(s[1..], word)
    else "_" + Sanitised(SkipUnsafe(s[1..], word), word)
  }

  predicate Trimmable(c: char) {
    c == ' ' || c == '.' || c == '_'
  }

  function TrimLeft(s: string): string {
    if s != "" && Trimmable(s[0]) then TrimLeft(s[1..]) else s
  }

  function TrimRight(s: string): string {
    if s != "" && Trimmable(s[|s| - 1]) then TrimRight(s[..|s| - 1]) else s
  }

  // str.strip(" ._")
  function Trim(s: string): string {
    TrimRight(TrimLeft(s))
  }

  function OrAttachment(s: string): string {
    if s == "" then "attachment" else s
  }

  function OwnName(displayName: string): string {
    Strip(PathName(ForwardSlashes(displayName)))
  }

  // A display name without a name in it: only then is the source URL looked at.
  predicate NamesNothing(displayName: string) {
    OwnName(displayName) in {"", ".", ".."}
  }

  function RawName(displayName: string, urlPath: string): string {
    if NamesNothing(displayName) then OrAttachment(PathName(urlPath)) else OwnName(displayName)
  }

  // The name before numbering; urlPath is the unquoted path of the source URL.
  function Basename(displayName: string, urlPath: string, word: char -> bool): string {
    OrAttachment(Trim(Sanitised(RawName(displayName, urlPath), word)))
  }

  // A name that is one path component and needs no cleaning.
  predicate CleanName(s: string, word: char -> bool) {
    && s != "" && !Trimmable(s[0]) && !Trimmable(s[|s| - 1])
    && forall i | 0 <= i < |s| :: Allowed(s[i], word)
  }

  lemma {:induction false} SanitisedAllowed(s: string, word: char -> bool)
    requires word('_')
    ensures forall i | 0 <= i < |Sanitised(s, word)| :: Allowed(Sanitised(s, word)[i], word)
    decreases |s|
  {
    if s != "" {
      if Allowed(s[0], word) { SanitisedAllowed(s[1..], word); } else { SanitisedAllowed(SkipUnsafe(s[1..], word), word); }
    }
  }

  lemma {:induction false} TrimLeftSlices(s: string)
    ensures var r := TrimLeft(s);
            |r| <= |s| && r == s[|s| - |r|..] && (r != "" ==> !Trimmable(r[0]))
  {
    if s != "" && Trimmable(s[0]) { TrimLeftSlices(s[1..]); }
  }

  lemma {:induction false} TrimRightSlices(s: string)
    ensures var r := TrimRight(s);
            |r| <= |s| && r == s[..|r|] && (r != "" ==> !Trimmable(r[|r| - 1]))
  {
    if s != "" && Trimmable(s[|s| - 1]) { TrimRightSlices(s[..|s| - 1]); }
  }

  lemma TrimmedClean(s: string, word: char -> bool)
    requires forall i | 0 <= i < |s| :: Allowed(s[i], word)
    ensures Trim(s) == "" || CleanName(Trim(s), word)
  {
    var l, r := TrimLeft(s), Trim(s);
    TrimLeftSlices(s);
    TrimRightSlices(l);
    if r != "" {
      assert r[0] == l[0];
      forall i | 0 <= i < |r| ensures Allowed(r[i], word) {
        assert r[i] == l[i] == s[|s| - |l| + i];
      }
    }
  }

  lemma AttachmentClean(word: char -> bool)
    requires WordClass(word)
    ensures CleanName("attachment", word)
  {
  }

  lemma BasenameClean(displayName: string, urlPath: string, word: char -> bool)
    requires WordClass(word)
    ensures CleanName(Basename(displayName, urlPath, word), word)
  {
    var raw := RawName(displayName, urlPath);
    SanitisedAllowed(raw, word);
    TrimmedClean(Sanitised(raw, word), word);
    AttachmentClean(word);
  }

  lemma {:induction false} CleanIsSanitised(s: string, word: char -> bool)
    requires forall i | 0 <= i < |s| :: Allowed(s[i], word)
    ensures Sanitised(s, word) == s
  {
    if s != "" { CleanIsSanitised(s[1..], word); }
  }

  lemma CleanIsPathName(s: string, word: char -> bool)
    requires WordClass(word) && CleanName(s, word)
    ensures ForwardSlashes(s) == s && PathName(s) == s && Strip(s) == s && s != "." && s != ".."
  {
    assert LastSlash(s) == -1;
    assert s[0..] == s;
    assert !IsSpace(s[0]) && !IsSpace(s[|s| - 1]);
  }

  lemma CleanIsRawName(s: string, urlPath: string, word: char -> bool)
    requires WordClass(word) && CleanName(s, word)
    ensures RawName(s, urlPath) == s
  {
    CleanIsPathName(s, word);
  }

  lemma TrimStays(s: string)
    requires s != "" && !Trimmable(s[0]) && !Trimmable(s[|s| - 1])
    ensures Trim(s) == s
  {
  }

  // Cleaning a clean name changes nothing; so cleaning is idempotent.
  lemma CleanNamesStay(s: string, urlPath: string, word: char -> bool)
    requires WordClass(word) && CleanName(s, word)
    ensures Basename(s, urlPath, word) == s
  {
    CleanIsRawName(s, urlPath, word);
    CleanIsSanitised(s, word);
    TrimStays(s);
  }

  // ---------- Numbering keeps what cleaning achieved ----------

  lemma NumberAllowed(k: nat, word: char -> bool)
    requires WordClass(word)
    ensures forall i | 0 <= i < |Number(k)| :: Allowed(Number(k)[i], word) && Number(k)[i] != '.'
  {
    if k != 0 { assert Number(k) == " (" + Decimal(k + 1) + ")"; }
  }

  lemma CandidateClean(name: string, k: nat, word: char -> bool)
    requires WordClass(word) && CleanName(name, word)
    ensures CleanName(Candidate(name, k), word)
  {
    StemAndSuffix(name);
    NumberAllowed(k, word);
    CleanParts(name, Stem(name), Number(k), Suffix(name), word);
  }

  // A clean name keeps its ends when an allowed middle goes in, unless that comes last.
  lemma CleanParts(name: string, stem: string, middle: string, suffix: string, word: char -> bool)
    requires CleanName(name, word) && name == stem + suffix && stem != ""
    requires forall i | 0 <= i < |middle| :: Allowed(middle[i], word)
    requires middle != "" ==> !Trimmable(middle[|middle| - 1])
    ensures CleanName(stem + middle + suffix, word)
  {
    var c := stem + middle + suffix;
    assert c[0] == name[0];
    if suffix != "" {
      assert c[|c| - 1] == suffix[|suffix| - 1] == name[|name| - 1];
    } else if middle != "" {
      assert c[|c| - 1] == middle[|middle| - 1];
    }
    forall i | 0 <= i < |c| ensures Allowed(c[i], word) {
      if i < |stem| { assert c[i] == name[i]; } else if i >= |stem| + |middle| { assert c[i] == name[i - |middle|]; }
    }
  }

  lemma LastDotIs(s: string, i: int)
    requires -1 <= i < |s| && (i >= 0 ==> s[i] == '.')
    requires forall j | i < j < |s| :: s[j] != '.'
    ensures LastDot(s) == i
  {
  }

  // Numbering goes before the extension.
  lemma CandidateKeepsSuffix(name: string, k: nat, word: char -> bool)
    requires WordClass(word) && CleanName(name, word)
    ensures Suffix(Candidate(name, k)) == Suffix(name)
  {
    var c, suffix := Candidate(name, k), Suffix(name);
    StemAndSuffix(name);
    NumberAllowed(k, word);
    if suffix == "" {
      assert LastDot(name) == -1;
      LastDotIs(c, -1);
    } else {
      var i := |c| - |suffix|;
      assert c[i..] == suffix;
      LastDotIs(c, i);
    }
  }

  // ---------- The code ----------

  lemma NumberedCandidate(name: string, sequence: nat)
    requires sequence >= 2
    ensures Stem(name) + " (" + Decimal(sequence) + ")" + Suffix(name) == Candidate(name, sequence - 1)
  {
    Associative(Stem(name) + " (", Decimal(sequence), ")");
    Associative(Stem(name), " (", Decimal(sequence) + ")");
    Associative(" (", Decimal(sequence), ")");
  }

  lemma FirstIsUnique(name: string, used: seq<string>, cf: char -> string, k: nat)
    requires KeepsPlain(cf)
    requires !Taken(name, used, cf, k) && AllBelow(TakenBy(name, used, cf), k)
    ensures k == FreeIndex(name, used, cf)
  {
    PickIsFree(name, used, cf);
    assert k < FreeIndex(name, used, cf) ==> Taken(name, used, cf, k);
  }

  // The loop ends, and at the first candidate whose folding is not in use.
  method UnusedName(basename: string, used: seq<string>, cf: char -> string) returns (candidate: string)
    requires KeepsPlain(cf)
    ensures candidate == Pick(basename, used, cf)
    ensures Fold(candidate, cf) !in FoldSet(used, cf)
  {
    var suffix, stem := Suffix(basename), Stem(basename);
    StemAndSuffix(basename);
    candidate := basename;
    var sequence: nat := 2;
    ghost var tried: nat := 0;
    while Fold(candidate, cf) in FoldSet(used, cf)
      invariant sequence == tried + 2 && candidate == Candidate(basename, tried) && tried <= |used|
      invariant AllBelow(TakenBy(basename, used, cf), tried)
      decreases |used| - tried
    {
      assert TakenBy(basename, used, cf)(tried);
      OneMore(TakenBy(basename, used, cf), tried);
      NotAllTaken(basename, used, cf, tried + 1);
      candidate := stem + " (" + Decimal(sequence) + ")" + suffix;
      NumberedCandidate(basename, sequence);
      sequence := sequence + 1;
      tried := tried + 1;
    }
    FirstIsUnique(basename, used, cf, tried);
  }

  // Raises on a source URL that does not parse, but only when it has to take the name from it.
  method SafeAttachmentFilename(
    displayName: string, urlPath: Option<string>, used: seq<string>, cf: char -> string, word: char -> bool)
    returns (filename: Option<string>)
    requires KeepsPlain(cf)
    ensures filename.None? <==> NamesNothing(displayName) && urlPath.None?
    ensures filename.Some? ==>
              && filename.value == Pick(Basename(displayName, urlPath.GetOr(""), word), used, cf)
              && Fold(filename.value, cf) !in FoldSet(used, cf)
  {
    var rawName := OwnName(displayName);
    if rawName == "" || rawName == "." || rawName == ".." {
      assert NamesNothing(displayName);
      if urlPath.None? {
        return None;
      }
      rawName := PathName(urlPath.value);
      if rawName == "" {
        rawName := "attachment";
      }
    }
    assert rawName == RawName(displayName, urlPath.GetOr(""));
    var basename := Trim(Sanitised(rawName, word));
    if basename == "" {
      basename := "attachment";
    }
    assert basename == Basename(displayName, urlPath.GetOr(""), word);
    var candidate := UnusedName(basename, used, cf);
    filename := Some(candidate);
  }

  lemma FirstCandidate(name: string)
    ensures Candidate(name, 0) == name
  {
    StemAndSuffix(name);
  }

  lemma CandidateIsUnlike(c: string, used: seq<string>, cf: char -> string)
    requires Fold(c, cf) !in FoldSet(used, cf)
    ensures forall u | u in used :: Fold(u, cf) != Fold(c, cf)
  {
  }

  lemma CleanIsOneComponent(s: string, word: char -> bool)
    requires WordClass(word) && CleanName(s, word)
    ensures '/' !in s && s != "." && s != ".."
  {
  }

  // What the chosen name is worth: one clean path component, with the extension of the cleaned
  // display name, unlike every used name whatever their case.
  lemma ChosenName(
    displayName: string, urlPath: string, used: seq<string>, cf: char -> string, word: char -> bool)
    requires KeepsPlain(cf) && WordClass(word)
    ensures var name := Basename(displayName, urlPath, word);
            var chosen := Pick(name, used, cf);
            && CleanName(chosen, word) && '/' !in chosen && chosen != "." && chosen != ".."
            && Suffix(chosen) == Suffix(name)
            && (forall u | u in used :: Fold(u, cf) != Fold(chosen, cf))
            && (chosen == name <==> Fold(name, cf) !in FoldSet(used, cf))
  {
    var name := Basename(displayName, urlPath, word);
    var n := FreeIndex(name, used, cf);
    BasenameClean(displayName, urlPath, word);
    CandidateClean(name, n, word);
    CandidateKeepsSuffix(name, n, word);
    CleanIsOneComponent(Candidate(name, n), word);
    PickIsFree(name, used, cf);
    FirstCandidate(name);
    CandidateIsUnlike(Candidate(name, n), used, cf);
    if n != 0 { assert Taken(name, used, cf, 0); }
  }

  // ---------- What cleaning does ----------

  function ValueOf(s: string): int {
    if s == "" then 0 else 10 * ValueOf(s[..|s| - 1]) + (s[|s| - 1] as int - '0' as int)
  }

  lemma {:induction false} DecimalValue(n: nat)
    ensures ValueOf(Decimal(n)) == n && (n > 0 ==> Decimal(n)[0] != '0')
  {
    if n >= 10 {
      DecimalValue(n / 10);
      assert Decimal(n)[..|Decimal(n)| - 1] == Decimal(n / 10);
    }
  }

  // The last component of a path is what follows the last slash; trailing slashes and dots do not count.
  lemma LastComponent(directory: string, name: string)
    requires name != "" && name != "." && '/' !in name
    ensures PathName(name) == name && PathName(directory + "/" + name) == name
    ensures PathName(name + "/") == name && PathName(name + "/.") == name
  {
    assert LastSlash(name) == -1 && name[0..] == name;
    SplitAtSlash(directory, name);
    SplitAtSlash(name, "");
    SplitAtSlash(name, ".");
    assert name + "/" + "" == name + "/" && name + "/" + "." == name + "/.";
  }

  lemma SplitAtSlash(directory: string, last: string)
    requires '/' !in last
    ensures PathName(directory + "/" + last) == if last != "" && last != "." then last else PathName(directory)
  {
    var p := directory + "/" + last;
    forall j | |directory| < j < |p| ensures p[j] != '/' { assert p[j] == last[j - |directory| - 1] && p[j] in last; }
    assert p[|directory|] == '/' && LastSlash(p) == |directory|;
    assert p[|directory| + 1..] == last && p[..|directory|] == directory;
  }

  // What a file name may contain.
  predicate Harmless(c: char, word: char -> bool) {
    word(c) || c in {'.', '(', ')', ' ', '-'}
  }

  // Each run of characters that are not allowed becomes one underscore; allowed ones stay.
  lemma {:induction false} SanitisedRun(a: string, run: string, rest: string, word: char -> bool)
    requires word('_') && forall i | 0 <= i < |a| :: Harmless(a[i], word)
    requires run != "" && forall i | 0 <= i < |run| :: !Harmless(run[i], word)
    requires rest == "" || Harmless(rest[0], word)
    ensures Sanitised(a + run + rest, word) == a + "_" + Sanitised(rest, word)
    decreases |a|
  {
    if a == "" {
      assert a + run + rest == run + rest;
      SkipsRun(run[1..], rest, word);
      assert (run + rest)[1..] == run[1..] + rest;
    } else {
      SanitisedRun(a[1..], run, rest, word);
      assert a + run + rest == [a[0]] + (a[1..] + run + rest);
      SanitisedCons(a[0], a[1..] + run + rest, word);
      assert [a[0]] + (a[1..] + "_" + Sanitised(rest, word)) == a + "_" + Sanitised(rest, word);
    }
  }

  lemma SanitisedCons(c: char, rest: string, word: char -> bool)
    requires Harmless(c, word)
    ensures Sanitised([c] + rest, word) == [c] + Sanitised(rest, word)
  {
    assert ([c] + rest)[1..] == rest;
  }

  lemma {:induction false} SkipsRun(run: string, rest: string, word: char -> bool)
    requires forall i | 0 <= i < |run| :: !Harmless(run[i], word)
    requires rest == "" || Harmless(rest[0], word)
    ensures SkipUnsafe(run + rest, word) == rest
  {
    if run == "" {
      assert run + rest == rest;
    } else {
      SkipsRun(run[1..], rest, word);
      assert (run + rest)[1..] == run[1..] + rest;
    }
  }

  // Trimming takes away spaces, dots and underscores at both ends, and nothing else.
  lemma TrimExact(s: string) returns (left: string, right: string)
    ensures s == left + Trim(s) + right
    ensures forall i | 0 <= i < |left| :: left[i] in {' ', '.', '_'}
    ensures forall i | 0 <= i < |right| :: right[i] in {' ', '.', '_'}
    ensures Trim(s) != "" ==> Trim(s)[0] !in {' ', '.', '_'} && Trim(s)[|Trim(s)| - 1] !in {' ', '.', '_'}
  {
    var l := TrimLeft(s);
    left := TrimsLeft(s);
    right := TrimsRight(l);
    TrimLeftSlices(s);
    TrimRightSlices(l);
    assert s == left + (Trim(s) + right);
  }

  lemma {:induction false} TrimsLeft(s: string) returns (left: string)
    ensures s == left + TrimLeft(s) && forall i | 0 <= i < |left| :: left[i] in {' ', '.', '_'}
  {
    if s != "" && Trimmable(s[0]) {
      var rest := TrimsLeft(s[1..]);
      left := [s[0]] + rest;
      assert left + TrimLeft(s) == [s[0]] + (rest + TrimLeft(s[1..])) == s;
    } else {
      left := "";
    }
  }

  lemma {:induction false} TrimsRight(s: string) returns (right: string)
    ensures s == TrimRight(s) + right && forall i | 0 <= i < |right| :: right[i] in {' ', '.', '_'}
  {
    if s != "" && Trimmable(s[|s| - 1]) {
      var rest := TrimsRight(s[..|s| - 1]);
      right := rest + [s[|s| - 1]];
      assert s == s[..|s| - 1] + [s[|s| - 1]];
    } else {
      right := "";
    }
  }

  function Cleaned(raw: string, word: char -> bool): string {
    var name := Trim(Sanitised(raw, word));
    if name == "" then "attachment" else name
  }

  lemma OwnComponent(directory: string, slash: char, name: string)
    requires slash in {'/', '\\'} && name != "" && name != "." && '/' !in name && '\\' !in name
    ensures OwnName(name) == Strip(name) && OwnName(directory + [slash] + name) == Strip(name)
  {
    LastComponent(ForwardSlashes(directory), name);
    assert ForwardSlashes(name) == name;
    SlashesForward(directory, slash, name);
  }

  lemma SlashesForward(directory: string, slash: char, name: string)
    requires slash in {'/', '\\'} && '\\' !in name
    ensures ForwardSlashes(directory + [slash] + name) == ForwardSlashes(directory) + "/" + name
  {
    var p := directory + [slash] + name;
    forall i | 0 <= i < |p| ensures ForwardSlashes(p)[i] == (ForwardSlashes(directory) + "/" + name)[i] {
      if i > |directory| { assert p[i] == name[i - |directory| - 1] && p[i] in name; }
    }
  }

  // The file name is made of the display name's last component, whichever slashes it is written with;
  // if that says nothing, of the last component of the URL's path; or else it is "attachment".
  lemma BasenameExact(directory: string, slash: char, name: string, urlDirectory: string, urlName: string, word: char -> bool)
    requires slash in {'/', '\\'} && name != "" && name != "." && '/' !in name && '\\' !in name
    requires urlName != "" && urlName != "." && '/' !in urlName && WordClass(word)
    ensures var url := urlDirectory + "/" + urlName;
            && (var own := if Strip(name) in {"", ".", ".."} then Cleaned(urlName, word) else Cleaned(Strip(name), word);
                Basename(name, url, word) == own && Basename(directory + [slash] + name, url, word) == own)
            && Basename("", url, word) == Cleaned(urlName, word) && Basename("", "", word) == "attachment"
  {
    var url := urlDirectory + "/" + urlName;
    OwnComponent(directory, slash, name);
    LastComponent(urlDirectory, urlName);
    NothingNamesNothing(word);
    BasenameOf(name, url, word);
    BasenameOf(directory + [slash] + name, url, word);
    BasenameOf("", url, word);
    BasenameOf("", "", word);
  }

  lemma BasenameOf(displayName: string, urlPath: string, word: char -> bool)
    ensures var own, linked := OwnName(displayName), PathName(urlPath);
            Basename(displayName, urlPath, word)
            == Cleaned(if own !in {"", ".", ".."} then own else if linked == "" then "attachment" else linked, word)
  {
  }

  lemma NothingNamesNothing(word: char -> bool)
    requires WordClass(word)
    ensures OwnName("") == "" && PathName("") == "" && Cleaned("attachment", word) == "attachment"
  {
    AttachmentClean(word);
    CleanIsSanitised("attachment", word);
    TrimStays("attachment");
  }

  // The extension begins at the last dot, unless that is the first or the last character.
  lemma SuffixExact(stem: string, extension: string)
    requires '.' !in extension
    ensures Suffix(extension) == "" && Suffix("." + extension) == "" && Suffix(stem + ".") == ""
    ensures stem != "" && extension != "" ==> Suffix(stem + "." + extension) == "." + extension && Stem(stem + "." + extension) == stem
  {
    LastDotIs("." + extension, 0);
    LastDotIs(stem + ".", |stem|);
    var name := stem + "." + extension;
    LastDotIs(name, |stem|);
    assert name[|stem|..] == "." + extension && name[..|stem|] == stem;
  }

  // The chosen name is the cleaned one or carries the first number, from 2 on, that makes it free.
  lemma ChosenNumber(name: string, used: seq<string>, cf: char -> string)
    requires KeepsPlain(cf)
    ensures var n := FreeIndex(name, used, cf);
            && n <= |used|
            && Pick(name, used, cf) == (if n == 0 then name else Stem(name) + (" (" + Decimal(n + 1) + ")") + Suffix(name))
            && Fold(Pick(name, used, cf), cf) !in FoldSet(used, cf)
            && (n > 0 ==> Fold(name, cf) in FoldSet(used, cf))
            && forall k: nat | 2 <= k <= n :: Fold(Stem(name) + (" (" + Decimal(k) + ")") + Suffix(name), cf) in FoldSet(used, cf)
  {
    var n := FreeIndex(name, used, cf);
    PickIsFree(name, used, cf);
    FirstCandidate(name);
    if n > 0 { assert Taken(name, used, cf, 0); }
    forall k: nat | 2 <= k <= n
      ensures Fold(Stem(name) + (" (" + Decimal(k) + ")") + Suffix(name), cf) in FoldSet(used, cf)
    {
      assert Taken(name, used, cf, k - 1);
      assert Number(k - 1) == " (" + Decimal(k) + ")";
    }
    assert n > 0 ==> Number(n) == " (" + Decimal(n + 1) + ")";
  }
}
