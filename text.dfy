/** String-level helpers shared by the server, the browser scripts and the report processor:
    JavaScript's whitespace class (`\s`, `String.prototype.trim`), ASCII lower-casing,
    substring search, the e-mail pattern `^[^\s@]+@[^\s@]+\.[^\s@]+$` and digit extraction. */
module Text {

  /** The characters JavaScript treats as white space: `\s` in a regular expression and what
      `trim()` removes (ASCII blanks, Unicode space separators, line terminators and the BOM). */
  predicate IsWhitespace(c: char) {
    || c == ' ' || c == '\t' || c == '\n' || c == '\r' || c == '\U{000B}' || c == '\U{000C}'
    || c == '\U{00A0}' || c == '\U{1680}' || ('\U{2000}' <= c <= '\U{200A}')
    || c == '\U{2028}' || c == '\U{2029}' || c == '\U{202F}' || c == '\U{205F}'
    || c == '\U{3000}' || c == '\U{FEFF}'
  }

  predicate AllWhitespace(s: string) {
    forall k :: 0 <= k < |s| ==> IsWhitespace(s[k])
  }

  /** Neither end of `s` is white space. */
  predicate IsTrimmed(s: string) {
    s == [] || (!IsWhitespace(s[0]) && !IsWhitespace(s[|s| - 1]))
  }

  /** `s.trimStart()` */
  function TrimStart(s: string): (r: string)
    ensures |r| <= |s|
    ensures r != [] ==> !IsWhitespace(r[0])
  {
    if s != [] && IsWhitespace(s[0]) then TrimStart(s[1..]) else s
  }

  /** `s.trimEnd()` */
  function TrimEnd(s: string): (r: string)
    ensures |r| <= |s|
    ensures r != [] ==> !IsWhitespace(r[|r| - 1])
  {
    if s != [] && IsWhitespace(s[|s| - 1]) then TrimEnd(s[..|s| - 1]) else s
  }

  /** `s.trim()`: `s` without its leading and trailing white space. */
  function Trim(s: string): (r: string)
    ensures |r| <= |s|
  {
    TrimEnd(TrimStart(s))
  }

  /** `trimStart` removes a prefix made only of white space. */
  lemma {:induction false} TrimStartDrops(s: string)
    ensures TrimStart(s) == s[|s| - |TrimStart(s)|..]
    ensures AllWhitespace(s[..|s| - |TrimStart(s)|])
  {
    if s != [] && IsWhitespace(s[0]) {
      TrimStartDrops(s[1..]);
      var n := |s| - |TrimStart(s)|;
      assert s[1..][..n - 1] == s[1..n];
      assert forall k :: 1 <= k < n ==> s[..n][k] == s[1..][..n - 1][k - 1];
    }
  }

  /** `trimEnd` removes a suffix made only of white space. */
  lemma {:induction false} TrimEndDrops(s: string)
    ensures TrimEnd(s) == s[..|TrimEnd(s)|]
    ensures AllWhitespace(s[|TrimEnd(s)|..])
  {
    if s != [] && IsWhitespace(s[|s| - 1]) {
      var t := s[..|s| - 1];
      TrimEndDrops(t);
      var m := |TrimEnd(s)|;
      assert t[..m] == s[..m];
      assert forall k :: 0 <= k < |s| - 1 - m ==> s[m..][k] == t[m..][k];
    }
  }

  /** The result of `trim()` starts and ends with a character that is not white space. */
  lemma TrimIsTrimmed(s: string)
    ensures IsTrimmed(Trim(s))
  {
    var t := TrimStart(s);
    TrimEndDrops(t);
  }

  /** `s.trim()` is empty exactly when `s` is all white space. */
  lemma TrimEmptyIff(s: string)
    ensures Trim(s) == [] <==> AllWhitespace(s)
  {
    var t := TrimStart(s);
    TrimStartDrops(s);
    TrimEndDrops(t);
    if Trim(s) == [] {
      assert s[..|s|] == s;
    }
  }

  /** JavaScript's `!x || x.trim().length === 0` for a string that is present. */
  predicate IsBlank(s: string) {
    |Trim(s)| == 0
  }

  lemma {:induction false} TrimStartOfTrimmed(s: string)
    requires s == [] || !IsWhitespace(s[0])
    ensures TrimStart(s) == s
  {
  }

  lemma {:induction false} TrimEndOfTrimmed(s: string)
    requires s == [] || !IsWhitespace(s[|s| - 1])
    ensures TrimEnd(s) == s
  {
  }

  /** A string with no white space at either end is its own trim. */
  lemma TrimOfTrimmed(s: string)
    requires IsTrimmed(s)
    ensures Trim(s) == s
  {
    TrimStartOfTrimmed(s);
    TrimEndOfTrimmed(s);
  }

  /** Trimming twice is trimming once: the dashboard trims a note before sending it and the
      server trims it again. */
  lemma TrimIdempotent(s: string)
    ensures Trim(Trim(s)) == Trim(s)
  {
    TrimIsTrimmed(s);
    TrimOfTrimmed(Trim(s));
  }

  /** `s.startsWith(p)` */
  predicate StartsWith(s: string, p: string) {
    p <= s
  }

  /** A string differing from `p` at a position both have does not start with `p`. */
  lemma NotStartsWithAt(s: string, p: string, i: nat)
    requires i < |p| && i < |s| && s[i] != p[i]
    ensures !StartsWith(s, p)
  {
  }

  /** `s.includes(sub)` (JavaScript) and `sub in s` (Python). */
  predicate Contains(s: string, sub: string)
    decreases |s|
  {
    sub <= s || (s != [] && Contains(s[1..], sub))
  }

  /** `Contains` holds exactly when `sub` occurs at some offset of `s`. */
  lemma {:induction false} ContainsAt(s: string, sub: string, k: nat)
    requires k + |sub| <= |s| && s[k..k + |sub|] == sub
    ensures Contains(s, sub)
    decreases k
  {
    if k == 0 {
      assert sub <= s;
    } else {
      assert s[1..][k - 1..k - 1 + |sub|] == s[k..k + |sub|];
      ContainsAt(s[1..], sub, k - 1);
    }
  }

  lemma {:induction false} ContainsWitness(s: string, sub: string) returns (k: nat)
    requires Contains(s, sub)
    ensures k + |sub| <= |s| && s[k..k + |sub|] == sub
    decreases |s|
  {
    if sub <= s {
      k := 0;
    } else {
      var j := ContainsWitness(s[1..], sub);
      assert s[1..][j..j + |sub|] == s[j + 1..j + 1 + |sub|];
      k := j + 1;
    }
  }

  /** A string that lacks one of the characters of `sub` does not contain `sub`. */
  lemma CharAbsentNotContained(s: string, sub: string, j: nat)
    requires j < |sub| && sub[j] !in s
    ensures !Contains(s, sub)
  {
    if Contains(s, sub) {
      var k := ContainsWitness(s, sub);
      assert false;
    }
  }

  /** ASCII case mapping (`toLowerCase()` / `lower()` restricted to ASCII letters). */
  function LowerChar(c: char): (d: char)
    ensures 'A' <= c <= 'Z' ==> 'a' <= d <= 'z' && d as int == c as int + 32
    ensures !('A' <= c <= 'Z') ==> d == c
  {
    if 'A' <= c <= 'Z' then (c as int + 32) as char else c
  }

  function Lower(s: string): (r: string)
    ensures |r| == |s|
    ensures forall k :: 0 <= k < |s| ==> r[k] == LowerChar(s[k])
  {
    if s == [] then [] else [LowerChar(s[0])] + Lower(s[1..])
  }

  lemma LowerIdempotent(s: string)
    ensures Lower(Lower(s)) == Lower(s)
  {
    assert forall k :: 0 <= k < |s| ==> Lower(Lower(s))[k] == Lower(s)[k];
  }

  /** `s.indexOf(c)`: the first position of `c`, or -1. */
  function IndexOf(s: string, c: char): (r: int)
    ensures -1 <= r < |s|
    ensures r == -1 <==> c !in s
    ensures 0 <= r ==> s[r] == c && c !in s[..r]
  {
    if s == [] then -1
    else if s[0] == c then 0
    else
      var j := IndexOf(s[1..], c);
      assert s[1..] == s[..][1..];
      if j == -1 then -1 else (assert s[..j + 1] == [s[0]] + s[1..][..j]; j + 1)
  }

  /** Every character belongs to the class `[^\s@]`. */
  predicate NoSpaceNorAt(t: string) {
    forall k :: 0 <= k < |t| ==> !IsWhitespace(t[k]) && t[k] != '@'
  }

  /** The meaning of `^[^\s@]+@[^\s@]+\.[^\s@]+$`: the string is `local "@" host "." tld` with
      all three parts non-empty and drawn from `[^\s@]`. */
  ghost predicate MatchesEmailPattern(s: string) {
    exists i, k :: 0 < i && i + 1 < k && k + 1 < |s| && s[i] == '@' && s[k] == '.' &&
      NoSpaceNorAt(s[..i]) && NoSpaceNorAt(s[i + 1..k]) && NoSpaceNorAt(s[k + 1..])
  }

  /** There is a '.' with at least one character on each side. */
  predicate HasInnerDot(t: string) {
    exists p :: 0 < p < |t| - 1 && t[p] == '.'
  }

  /** The regular-expression test `/^[^\s@]+@[^\s@]+\.[^\s@]+$/.test(s)`, decided by locating
      the first '@'. */
  predicate IsEmail(s: string) {
    var i := IndexOf(s, '@');
    0 < i && NoSpaceNorAt(s[..i]) && NoSpaceNorAt(s[i + 1..]) && HasInnerDot(s[i + 1..])
  }

  lemma {:induction false} EmailMatchHasParts(s: string)
    requires IsEmail(s)
    ensures MatchesEmailPattern(s)
  {
    var i := IndexOf(s, '@');
    var rest := s[i + 1..];
    var p :| 0 < p < |rest| - 1 && rest[p] == '.';
    var k := i + 1 + p;
    assert s[k] == '.';
    assert s[i + 1..k] == rest[..p];
    assert s[k + 1..] == rest[p + 1..];
    assert NoSpaceNorAt(s[i + 1..k]) by { NoSpaceNorAtSlice(rest, 0, p); }
    assert NoSpaceNorAt(s[k + 1..]) by { NoSpaceNorAtSlice(rest, p + 1, |rest|); }
  }

  lemma {:induction false} EmailPartsMatch(s: string, i: nat, k: nat)
    requires 0 < i && i + 1 < k && k + 1 < |s| && s[i] == '@' && s[k] == '.'
    requires NoSpaceNorAt(s[..i]) && NoSpaceNorAt(s[i + 1..k]) && NoSpaceNorAt(s[k + 1..])
    ensures IsEmail(s)
  {
    assert '@' !in s[..i];
    var j := IndexOf(s, '@');
    assert j == i;
    var rest := s[i + 1..];
    assert rest == s[i + 1..k] + [s[k]] + s[k + 1..];
    assert rest[k - i - 1] == '.';
    assert HasInnerDot(rest);
  }

  lemma {:induction false} NoSpaceNorAtSlice(t: string, a: nat, b: nat)
    requires a <= b <= |t| && NoSpaceNorAt(t)
    ensures NoSpaceNorAt(t[a..b])
  {
    assert forall k :: 0 <= k < b - a ==> t[a..b][k] == t[a + k];
  }

  /** The matcher accepts exactly the strings the pattern describes. */
  lemma IsEmailIffPattern(s: string)
    ensures IsEmail(s) <==> MatchesEmailPattern(s)
  {
    if IsEmail(s) {
      EmailMatchHasParts(s);
    }
    if MatchesEmailPattern(s) {
      var i, k :| 0 < i && i + 1 < k && k + 1 < |s| && s[i] == '@' && s[k] == '.' &&
        NoSpaceNorAt(s[..i]) && NoSpaceNorAt(s[i + 1..k]) && NoSpaceNorAt(s[k + 1..]);
      EmailPartsMatch(s, i, k);
    }
  }

  /** A pattern match contains no white space, so it is its own trim. */
  lemma EmailIsTrimmed(s: string)
    requires IsEmail(s)
    ensures !IsWhitespace(s[0]) && !IsWhitespace(s[|s| - 1]) && Trim(s) == s
  {
    var i := IndexOf(s, '@');
    assert s[0] == s[..i][0];
    var rest := s[i + 1..];
    assert rest[|rest| - 1] == s[|s| - 1];
    TrimOfTrimmed(s);
  }

  /** The pattern accepts `a@b.co`. */
  lemma SampleEmailAccepted()
    ensures IsEmail("a@b.co")
  {
    assert IndexOf("a@b.co", '@') == 1;
    assert "a@b.co"[2..] == "b.co";
    assert "b.co"[1] == '.';
  }

  /** The pattern rejects `bad@`: nothing follows the '@'. */
  lemma SampleEmailDanglingAt()
    ensures !IsEmail("bad@")
  {
    assert IndexOf("bad@", '@') == 3;
  }

  /** The pattern rejects ` a@b.co`: the whole string is tested, leading space included. */
  lemma SampleEmailLeadingSpace()
    ensures !IsEmail(" a@b.co")
  {
    assert IndexOf(" a@b.co", '@') == 2;
    assert " a@b.co"[..2][0] == ' ';
  }

  /** The pattern rejects `a@b.co` after a no-break space: U+00A0 belongs to `\s`. */
  lemma SampleEmailLeadingNoBreakSpace()
    ensures !IsEmail("\U{00A0}a@b.co")
  {
    assert IndexOf("\U{00A0}a@b.co", '@') == 2;
    assert "\U{00A0}a@b.co"[..2][0] == '\U{00A0}';
  }

  predicate IsDigit(c: char) {
    '0' <= c <= '9'
  }

  /** The digits of `s` in order: `s.replace(/\D/g, '')` and `re.sub(r'\D', '', s)`. */
  function Digits(s: string): (r: string)
    ensures |r| <= |s|
    ensures forall k :: 0 <= k < |r| ==> IsDigit(r[k])
    ensures (forall k :: 0 <= k < |s| ==> IsDigit(s[k])) ==> r == s
  {
    if s == [] then [] else (if IsDigit(s[0]) then [s[0]] else []) + Digits(s[1..])
  }

  /** The number of digits in `s`. */
  function DigitCount(s: string): nat {
    if s == [] then 0 else (if IsDigit(s[0]) then 1 else 0) + DigitCount(s[1..])
  }

  /** Stripping works piece by piece: the digits of `a + b` are those of `a` followed by
      those of `b`, so the digits keep their order. */
  lemma {:induction false} DigitsAppend(a: string, b: string)
    ensures Digits(a + b) == Digits(a) + Digits(b)
    decreases |a|
  {
    if a != [] {
      assert (a + b)[1..] == a[1..] + b;
      DigitsAppend(a[1..], b);
    } else {
      assert a + b == b;
    }
  }

  /** Every digit is kept as often as it occurs, and nothing else is kept. */
  lemma {:induction false} DigitsMultiplicity(s: string, c: char)
    ensures multiset(Digits(s))[c] == if IsDigit(c) then multiset(s)[c] else 0
    decreases |s|
  {
    if s != [] {
      assert s == [s[0]] + s[1..];
      DigitsMultiplicity(s[1..], c);
    }
  }

  /** Stripping the non-digits leaves exactly as many characters as `s` has digits. */
  lemma {:induction false} DigitsLength(s: string)
    ensures |Digits(s)| == DigitCount(s)
  {
    if s != [] { DigitsLength(s[1..]); }
  }
}
