/**
 * The parts of Python's `str` that the publisher relies on, with Python's
 * semantics: `isspace`, `strip`, `find`, `split(sep)`, `join`, `replace`,
 * `startswith`, ASCII `lower`, and decimal digits.
 */
module Text {
  import opened Wrappers

  /** Python's `str.isspace()` for one character (the Unicode White_Space code points it accepts). */
  predicate IsSpace(c: char)
  {
    c == ' ' || ('\t' <= c <= '\r') || ('\U{1c}' <= c <= '\U{1f}')
    || c == '\U{85}' || c == '\U{a0}' || c == '\U{1680}'
    || ('\U{2000}' <= c <= '\U{200a}') || c == '\U{2028}' || c == '\U{2029}'
    || c == '\U{202f}' || c == '\U{205f}' || c == '\U{3000}'
  }

  /** True when `s.strip()` is empty: Python's `not s or not s.strip()`. */
  predicate IsBlank(s: string)
  {
    forall i :: 0 <= i < |s| ==> IsSpace(s[i])
  }

  function StripLeft(s: string): (r: string)
    ensures |r| <= |s| && r == s[|s| - |r|..]
    ensures IsBlank(s[..|s| - |r|])
    ensures r == [] || !IsSpace(r[0])
  {
    if s == [] || !IsSpace(s[0]) then s else StripLeft(s[1..])
  }

  function StripRight(s: string): (r: string)
    ensures |r| <= |s| && r == s[..|r|]
    ensures IsBlank(s[|r|..])
    ensures r == [] || !IsSpace(r[|r| - 1])
  {
    if s == [] || !IsSpace(s[|s| - 1]) then s else StripRight(s[..|s| - 1])
  }

  /** `r` sits at offset `i` of `s` with only whitespace before and after it. */
  predicate BlankAround(s: string, i: int, r: string)
  {
    0 <= i <= |s| - |r| && r == s[i..i + |r|] && IsBlank(s[..i]) && IsBlank(s[i + |r|..])
  }

  /** Python's `s.strip()`: whitespace removed at both ends, nothing else changed. */
  function Strip(s: string): (r: string)
    ensures r == [] || (!IsSpace(r[0]) && !IsSpace(r[|r| - 1]))
    ensures r == [] <==> IsBlank(s)
  {
    var l := StripLeft(s);
    var r := StripRight(l);
    assert r == [] ==> IsBlank(s) by {
      if r == [] {
        assert s == s[..|s| - |l|] + l;
        assert IsBlank(l[|r|..]);
      }
    }
    r
  }

  /** What `strip()` keeps is an infix of the string with only whitespace around it. */
  lemma StripInfix(s: string)
    ensures exists i :: BlankAround(s, i, Strip(s))
  {
    var l := StripLeft(s);
    var r := StripRight(l);
    var i := |s| - |l|;
    assert l[..|r|] == s[i..i + |r|];
    assert l[|r|..] == s[i + |r|..];
    assert Strip(s) == r && BlankAround(s, i, r);
  }

  lemma {:induction false} StripLeftSkips(t: string, k: nat, n: nat)
    requires k <= n <= |t|
    requires forall i :: k <= i < n ==> IsSpace(t[i])
    ensures StripLeft(t[k..]) == StripLeft(t[n..])
    decreases n - k
  {
    if k < n {
      assert t[k..][0] == t[k];
      assert t[k..][1..] == t[k + 1..];
      StripLeftSkips(t, k + 1, n);
    }
  }

  /** Whitespace in front of a string does not survive `strip()`. */
  lemma StripAfterBlank(w: string, s: string)
    requires IsBlank(w)
    ensures Strip(w + s) == Strip(s)
  {
    StripLeftSkips(w + s, 0, |w|);
    assert (w + s)[0..] == w + s;
    assert (w + s)[|w|..] == s;
  }

  function StripChar(s: string, c: char): (r: string)
    ensures r == [] || (r[0] != c && r[|r| - 1] != c)
    ensures forall i :: 0 <= i < |r| ==> r[i] in s
  {
    if s == [] then s
    else if s[0] == c then StripChar(s[1..], c)
    else if s[|s| - 1] == c then StripChar(s[..|s| - 1], c)
    else s
  }

  predicate AllIn(s: string, cs: set<char>)
  {
    forall k :: 0 <= k < |s| ==> s[k] in cs
  }

  /** `r` sits at offset `i` of `s` with only characters of `cs` before and after it. */
  predicate CharsAround(s: string, i: int, r: string, cs: set<char>)
  {
    0 <= i <= |s| - |r| && r == s[i..i + |r|] && AllIn(s[..i], cs) && AllIn(s[i + |r|..], cs)
  }

  /**
   * Python's `s.strip(chars)` for a set of characters: the infix of `s` left
   * when the characters of `cs` are removed at both ends.
   */
  function StripChars(s: string, cs: set<char>): (r: string)
    ensures exists i :: CharsAround(s, i, r, cs)
    ensures r == [] || (r[0] !in cs && r[|r| - 1] !in cs)
  {
    if s == [] then
      CharsAroundWhole(s, cs);
      s
    else if s[0] in cs then
      var r := StripChars(s[1..], cs);
      CharsAroundFront(s, r, cs);
      r
    else if s[|s| - 1] in cs then
      var t := s[..|s| - 1];
      var r := StripChars(t, cs);
      CharsAroundBack(s, t, r, cs);
      r
    else
      CharsAroundWhole(s, cs);
      s
  }

  lemma CharsAroundWhole(s: string, cs: set<char>)
    ensures CharsAround(s, 0, s, cs)
  {
    assert s[0..0 + |s|] == s;
  }

  /** A stripped character in front widens what lies before the infix. */
  lemma CharsAroundFront(s: string, r: string, cs: set<char>)
    requires s != [] && s[0] in cs && exists i :: CharsAround(s[1..], i, r, cs)
    ensures exists i :: CharsAround(s, i, r, cs)
  {
    var i :| CharsAround(s[1..], i, r, cs);
    assert s[1..][i..i + |r|] == s[i + 1..i + 1 + |r|];
    assert s[1..][i + |r|..] == s[i + 1 + |r|..];
    assert s[..i + 1] == [s[0]] + s[1..][..i];
    assert CharsAround(s, i + 1, r, cs);
  }

  /** A stripped character at the end widens what lies after the infix. */
  lemma CharsAroundBack(s: string, t: string, r: string, cs: set<char>)
    requires s != [] && s[|s| - 1] in cs && t == s[..|s| - 1] && exists i :: CharsAround(t, i, r, cs)
    ensures exists i :: CharsAround(s, i, r, cs)
  {
    var i :| CharsAround(t, i, r, cs);
    assert t[i..i + |r|] == s[i..i + |r|];
    assert t[..i] == s[..i];
    assert s[i + |r|..] == t[i + |r|..] + [s[|s| - 1]];
    assert CharsAround(s, i, r, cs);
  }

  predicate StartsWith(s: string, prefix: string)
  {
    |prefix| <= |s| && s[..|prefix|] == prefix
  }

  predicate OccursAt(s: string, pat: string, i: int)
  {
    0 <= i && i + |pat| <= |s| && s[i..i + |pat|] == pat
  }

  /** Python's `s.find(pat)`: the least index at which `pat` occurs. */
  function Find(s: string, pat: string): (r: Option<nat>)
    ensures r.Some? ==> OccursAt(s, pat, r.value)
    ensures r.Some? ==> forall j :: 0 <= j < r.value ==> !OccursAt(s, pat, j)
    ensures r.None? ==> forall j :: !OccursAt(s, pat, j)
    decreases |s|
  {
    if |s| < |pat| then None
    else if s[..|pat|] == pat then Some(0)
    else
      var tail := Find(s[1..], pat);
      assert forall j :: 1 <= j ==> (OccursAt(s, pat, j) <==> OccursAt(s[1..], pat, j - 1)) by {
        forall j | 1 <= j
          ensures OccursAt(s, pat, j) <==> OccursAt(s[1..], pat, j - 1)
        {
          if j + |pat| <= |s| {
            assert s[1..][j - 1..j - 1 + |pat|] == s[j..j + |pat|];
          }
        }
      }
      assert !OccursAt(s, pat, 0);
      match tail
      case None => None
      case Some(i) => Some(i + 1)
  }

  /** Python's `pat in s`. */
  predicate Contains(s: string, pat: string)
  {
    Find(s, pat).Some?
  }

  /** An occurrence inside a prefix is an occurrence in the whole string. */
  lemma OccursInPrefix(s: string, pat: string, n: nat, j: int)
    requires n <= |s| && OccursAt(s[..n], pat, j)
    ensures OccursAt(s, pat, j)
  {
    assert s[..n][j..j + |pat|] == s[j..j + |pat|];
  }

  /** Python's `s.split(sep)` for a non-empty separator. */
  function Split(s: string, sep: string): (r: seq<string>)
    requires |sep| > 0
    ensures |r| >= 1
    decreases |s|
  {
    match Find(s, sep)
    case None => [s]
    case Some(i) => [s[..i]] + Split(s[i + |sep|..], sep)
  }

  /** Python's `sep.join(parts)`. */
  function Join(parts: seq<string>, sep: string): string
  {
    if |parts| == 0 then ""
    else if |parts| == 1 then parts[0]
    else parts[0] + sep + Join(parts[1..], sep)
  }

  lemma JoinCons(p: string, parts: seq<string>, sep: string)
    requires |parts| >= 1
    ensures Join([p] + parts, sep) == p + sep + Join(parts, sep)
  {
    assert ([p] + parts)[1..] == parts;
  }

  /** Joining the pieces of a split with the same separator gives the text back. */
  lemma {:induction false} JoinSplit(s: string, sep: string)
    requires |sep| > 0
    ensures Join(Split(s, sep), sep) == s
    decreases |s|
  {
    match Find(s, sep)
    case None =>
    case Some(i) =>
      var rest := s[i + |sep|..];
      assert Split(s, sep) == [s[..i]] + Split(rest, sep);
      JoinSplit(rest, sep);
      JoinCons(s[..i], Split(rest, sep), sep);
      assert Join(Split(s, sep), sep) == s[..i] + sep + rest;
      assert s[i..i + |sep|] == sep;
      ThreeParts(s, i, i + |sep|);
  }

  lemma ThreeParts(s: string, a: nat, b: nat)
    requires a <= b <= |s|
    ensures s == s[..a] + s[a..b] + s[b..]
  {
  }

  /** No piece of a split contains the separator. */
  lemma {:induction false} SplitPiecesFree(s: string, sep: string, k: nat)
    requires |sep| > 0 && k < |Split(s, sep)|
    ensures !Contains(Split(s, sep)[k], sep)
    decreases |s|
  {
    match Find(s, sep)
    case None =>
    case Some(i) =>
      if k == 0 {
        if Contains(s[..i], sep) {
          var j := Find(s[..i], sep).value;
          OccursInPrefix(s, sep, i, j);
        }
      } else {
        SplitPiecesFree(s[i + |sep|..], sep, k - 1);
      }
  }

  /** Python's `s.replace(pat, rep)` for a non-empty pattern: every occurrence, left to right, not overlapping. */
  function Replace(s: string, pat: string, rep: string): string
    requires |pat| > 0
    decreases |s|
  {
    match Find(s, pat)
    case None => s
    case Some(i) => s[..i] + rep + Replace(s[i + |pat|..], pat, rep)
  }

  /**
   * `replace` is `split` followed by `join`: the text between occurrences is
   * kept verbatim and only the occurrences change.
   */
  lemma {:induction false} ReplaceIsSplitJoin(s: string, pat: string, rep: string)
    requires |pat| > 0
    ensures Replace(s, pat, rep) == Join(Split(s, pat), rep)
    decreases |s|
  {
    match Find(s, pat)
    case None =>
    case Some(i) =>
      ReplaceIsSplitJoin(s[i + |pat|..], pat, rep);
      JoinCons(s[..i], Split(s[i + |pat|..], pat), rep);
  }

  /** Replacing a pattern by itself changes nothing. */
  lemma ReplaceSelf(s: string, pat: string)
    requires |pat| > 0
    ensures Replace(s, pat, pat) == s
  {
    ReplaceIsSplitJoin(s, pat, pat);
    JoinSplit(s, pat);
  }

  function LowerChar(c: char): (r: char)
  {
    if 'A' <= c <= 'Z' then (c as int + 32) as char else c
  }

  /** `s.lower()` on the ASCII letters; every other character is kept. */
  function Lower(s: string): (r: string)
    ensures |r| == |s|
    ensures forall i :: 0 <= i < |s| ==> r[i] == LowerChar(s[i])
  {
    seq(|s|, i requires 0 <= i < |s| => LowerChar(s[i]))
  }

  predicate IsDigit(c: char)
  {
    '0' <= c <= '9'
  }

  predicate AllDigits(s: string)
  {
    forall i :: 0 <= i < |s| ==> IsDigit(s[i])
  }

  function DigitChar(d: nat): (c: char)
    requires d < 10
    ensures IsDigit(c)
  {
    ('0' as int + d) as char
  }

  /** `int(s)` for a string of ASCII digits. */
  function DigitsValue(s: string): nat
    requires AllDigits(s)
  {
    if s == [] then 0 else DigitsValue(s[..|s| - 1]) * 10 + (s[|s| - 1] as int - '0' as int)
  }

  function Pow10(n: nat): (r: nat)
    ensures r >= 1
  {
    if n == 0 then 1 else 10 * Pow10(n - 1)
  }

  /** The last `width` decimal digits of `n`, zero-padded: `strftime`'s `%04d`-style fields. */
  function Pad(n: nat, width: nat): (r: string)
    ensures |r| == width && AllDigits(r)
  {
    if width == 0 then "" else Pad(n / 10, width - 1) + [DigitChar(n % 10)]
  }

  /** Reading a zero-padded field back gives the number, when it fits in the width. */
  lemma {:induction false} PadValue(n: nat, width: nat)
    requires n < Pow10(width)
    ensures DigitsValue(Pad(n, width)) == n
  {
    if width > 0 {
      PadValue(n / 10, width - 1);
      var p := Pad(n, width);
      assert p[..|p| - 1] == Pad(n / 10, width - 1);
    }
  }

  /** The shortest decimal representation: Python's `str(n)`. */
  function Decimal(n: nat): (r: string)
    ensures |r| >= 1 && AllDigits(r)
    ensures DigitsValue(r) == n
    ensures r[0] == '0' <==> n == 0
    ensures |r| > 1 ==> r[0] != '0'
  {
    if n < 10 then [DigitChar(n)]
    else
      var r := Decimal(n / 10) + [DigitChar(n % 10)];
      assert r[..|r| - 1] == Decimal(n / 10);
      r
  }

  /** The longest prefix of ASCII digits: the group of `re.match(r"(\d+)", s)`. */
  function LeadingDigits(s: string): (r: string)
    ensures AllDigits(r) && StartsWith(s, r)
    ensures |r| < |s| ==> !IsDigit(s[|r|])
  {
    if s != [] && IsDigit(s[0]) then [s[0]] + LeadingDigits(s[1..]) else ""
  }

  /**
   * `text.startswith("---")` followed by `text.split("---", 2)` with at least
   * three parts: the text between the opening delimiter and the next `---`,
   * and everything after that second delimiter.
   */
  function SplitFrontMatter(s: string): (r: Option<(string, string)>)
    ensures r.Some? ==> s == "---" + r.value.0 + "---" + r.value.1
    ensures r.Some? ==> !Contains(r.value.0, "---")
    ensures r.None? ==> !StartsWith(s, "---") || !Contains(s[3..], "---")
  {
    if !StartsWith(s, "---") then None
    else
      var rest := s[3..];
      match Find(rest, "---")
      case None => None
      case Some(j) =>
        assert rest == rest[..j] + "---" + rest[j + 3..];
        assert !Contains(rest[..j], "---") by {
          if Contains(rest[..j], "---") {
            OccursInPrefix(rest, "---", j, Find(rest[..j], "---").value);
          }
        }
        Some((rest[..j], rest[j + 3..]))
  }

  /** A list of strings as Python prints it: `['a', 'b']`. */
  function PyList(items: seq<string>): string
  {
    "[" + Join(Quoted(items), ", ") + "]"
  }

  function Quoted(items: seq<string>): (r: seq<string>)
    ensures |r| == |items| && forall i :: 0 <= i < |items| ==> r[i] == "'" + items[i] + "'"
  {
    seq(|items|, i requires 0 <= i < |items| => "'" + items[i] + "'")
  }
}
