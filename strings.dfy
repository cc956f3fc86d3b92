/** The slice of Python's `str` behaviour that the ingestion and email code relies on:
    ASCII case mapping, `strip`, `startswith`/`endswith`/`in`, `replace`, `split`/`join`,
    `splitlines` and the integer-to-text conversion of f-strings. */
module Strings {
  import opened Wrappers


  // ---------------------------------------------------------------- characters

  /** `str.isspace` for one character (Unicode whitespace as CPython defines it). */
  predicate IsSpace(c: char) {
    c == ' ' || ('\t' <= c <= '\r') || ('\U{1c}' <= c <= '\U{1f}') || c == '\U{85}'
    || c == '\U{a0}' || c == '\U{1680}' || ('\U{2000}' <= c <= '\U{200a}') || c == '\U{2028}'
    || c == '\U{2029}' || c == '\U{202f}' || c == '\U{205f}' || c == '\U{3000}'
  }

  /** The line boundaries of `str.splitlines` (`\r\n` is handled by `SplitLines`). */
  predicate IsLineBreak(c: char) {
    c == '\n' || c == '\r' || c == '\U{b}' || c == '\U{c}' || c == '\U{1c}' || c == '\U{1d}'
    || c == '\U{1e}' || c == '\U{85}' || c == '\U{2028}' || c == '\U{2029}'
  }

  predicate IsDigit(c: char) { '0' <= c <= '9' }

  function LowerChar(c: char): char {
    if 'A' <= c <= 'Z' then (c as int + 32) as char else c
  }

  function UpperChar(c: char): char {
    if 'a' <= c <= 'z' then (c as int - 32) as char else c
  }

  /** `str.lower` restricted to ASCII letters. */
  function Lower(s: string): (r: string)
    ensures |r| == |s| && forall i :: 0 <= i < |s| ==> r[i] == LowerChar(s[i])
  {
    if s == [] then [] else [LowerChar(s[0])] + Lower(s[1..])
  }

  /** Lowering works per character, so it distributes over concatenation. */
  lemma LowerConcat(a: string, b: string)
    ensures Lower(a + b) == Lower(a) + Lower(b)
  {
    assert forall i :: 0 <= i < |a| ==> (a + b)[i] == a[i];
    assert forall i :: |a| <= i < |a| + |b| ==> (a + b)[i] == b[i - |a|];
  }

  /** A suffix of the tail is a suffix of the whole. */
  lemma EndsWithConcat(a: string, b: string, p: string)
    requires EndsWith(b, p)
    ensures EndsWith(a + b, p)
  {
    assert (a + b)[|a + b| - |p|..] == b[|b| - |p|..];
  }

  /** `str.upper` restricted to ASCII letters. */
  function Upper(s: string): (r: string)
    ensures |r| == |s| && forall i :: 0 <= i < |s| ==> r[i] == UpperChar(s[i])
  {
    if s == [] then [] else [UpperChar(s[0])] + Upper(s[1..])
  }

  // ---------------------------------------------------------------- strip

  function LStrip(s: string): (r: string)
    ensures |r| <= |s| && r == s[|s| - |r|..]
    ensures r == [] || !IsSpace(r[0])
    ensures forall i :: 0 <= i < |s| - |r| ==> IsSpace(s[i])
  {
    if s != [] && IsSpace(s[0]) then LStrip(s[1..]) else s
  }

  function RStrip(s: string): (r: string)
    ensures |r| <= |s| && r == s[..|r|]
    ensures r == [] || !IsSpace(r[|r| - 1])
    ensures forall i :: |r| <= i < |s| ==> IsSpace(s[i])
  {
    if s != [] && IsSpace(s[|s| - 1]) then RStrip(s[..|s| - 1]) else s
  }

  /** `str.strip()` with no argument. */
  function Strip(s: string): (r: string)
    ensures |r| <= |s|
    ensures r == [] || (!IsSpace(r[0]) && !IsSpace(r[|r| - 1]))
  {
    RStrip(LStrip(s))
  }

  /** `str.lstrip(ch)` for one character. */
  function LStripChar(s: string, ch: char): (r: string)
    ensures |r| <= |s| && r == s[|s| - |r|..]
    ensures r == [] || r[0] != ch
  {
    if s != [] && s[0] == ch then LStripChar(s[1..], ch) else s
  }

  /** 0, 1, ..., n - 1. */
  function Range(n: nat): (r: seq<nat>)
    ensures |r| == n && forall i :: 0 <= i < n ==> r[i] == i
  {
    if n == 0 then [] else Range(n - 1) + [n - 1]
  }

  // ---------------------------------------------------------------- search

  predicate StartsWith(s: string, p: string) { p <= s }

  predicate EndsWith(s: string, p: string) { |p| <= |s| && s[|s| - |p|..] == p }

  /** `p in s`. */
  predicate Contains(s: string, p: string)
    decreases |s|
  {
    p <= s || (s != [] && Contains(s[1..], p))
  }

  /** A string shorter than `p` cannot contain `p` (unless `p` is empty). */
  lemma ShortNotContains(s: string, p: string)
    requires |s| < |p|
    ensures !Contains(s, p)
    decreases |s|
  {
    if s != [] { ShortNotContains(s[1..], p); }
  }

  /** `s.rfind(c, lo, hi)`: the last index in [lo, hi) holding `c`, or -1. */
  function RFind(s: string, c: char, lo: int, hi: int): (r: int)
    requires 0 <= lo && hi <= |s|
    ensures r == -1 || (lo <= r < hi && s[r] == c)
    ensures forall i :: (if r == -1 then lo else r + 1) <= i < hi ==> s[i] != c
    decreases hi - lo
  {
    if hi <= lo then -1 else if s[hi - 1] == c then hi - 1 else RFind(s, c, lo, hi - 1)
  }

  /** Index of the first occurrence of `c` in `s`, or `|s|`. */
  function IndexOf(s: string, c: char): (r: nat)
    ensures r <= |s| && (r < |s| ==> s[r] == c)
    ensures forall i :: 0 <= i < r ==> s[i] != c
  {
    if s == [] then 0 else if s[0] == c then 0 else 1 + IndexOf(s[1..], c)
  }

  /** Index of the last occurrence of `c` in `s`, or -1. */
  function LastIndexOf(s: string, c: char): (r: int)
    ensures -1 <= r < |s| && (r >= 0 ==> s[r] == c)
    ensures forall i :: r < i < |s| ==> s[i] != c
  {
    RFind(s, c, 0, |s|)
  }

  /** `IndexOf` is the first position holding `c`, or the length. */
  lemma IndexOfIs(s: string, c: char, r: nat)
    requires r <= |s| && (r < |s| ==> s[r] == c)
    requires forall i :: 0 <= i < r ==> s[i] != c
    ensures IndexOf(s, c) == r
  {
    var q := IndexOf(s, c);
  }

  /** `LastIndexOf` is the last position holding `c`, or -1. */
  lemma LastIndexOfIs(s: string, c: char, r: int)
    requires -1 <= r < |s| && (r >= 0 ==> s[r] == c)
    requires forall i :: r < i < |s| ==> s[i] != c
    ensures LastIndexOf(s, c) == r
  {
    var q := LastIndexOf(s, c);
  }

  // ---------------------------------------------------------------- replace / split / join

  /** `s.replace(p, r)`: every leftmost, non-overlapping occurrence of `p` replaced. */
  function ReplaceAll(s: string, p: string, r: string): string
    requires |p| > 0
    decreases |s|
  {
    if |s| < |p| then s
    else if p <= s then r + ReplaceAll(s[|p|..], p, r)
    else [s[0]] + ReplaceAll(s[1..], p, r)
  }

  /** `s.split(p)`. */
  function Split(s: string, p: string): (parts: seq<string>)
    requires |p| > 0
    ensures |parts| >= 1
    decreases |s|
  {
    if |s| < |p| then [s]
    else if p <= s then [""] + Split(s[|p|..], p)
    else var rest := Split(s[1..], p); [[s[0]] + rest[0]] + rest[1..]
  }

  /** `sep.join(parts)`. */
  function Join(parts: seq<string>, sep: string): string {
    if parts == [] then ""
    else if |parts| == 1 then parts[0]
    else parts[0] + sep + Join(parts[1..], sep)
  }

  lemma JoinPrepend(c: string, parts: seq<string>, sep: string)
    requires parts != []
    ensures Join([c + parts[0]] + parts[1..], sep) == c + Join(parts, sep)
  {
    if |parts| > 1 {
      assert ([c + parts[0]] + parts[1..])[1..] == parts[1..];
    }
  }

  /** Replacing is splitting on the pattern and joining with the replacement. */
  lemma {:induction false} ReplaceIsSplitJoin(s: string, p: string, r: string)
    requires |p| > 0
    ensures ReplaceAll(s, p, r) == Join(Split(s, p), r)
    decreases |s|
  {
    if |s| < |p| {
    } else if p <= s {
      ReplaceIsSplitJoin(s[|p|..], p, r);
      var rest := Split(s[|p|..], p);
      assert ([""] + rest)[1..] == rest;
    } else {
      ReplaceIsSplitJoin(s[1..], p, r);
      JoinPrepend([s[0]], Split(s[1..], p), r);
    }
  }

  lemma {:induction false} ReplaceBySelf(s: string, p: string)
    requires |p| > 0
    ensures ReplaceAll(s, p, p) == s
    decreases |s|
  {
    if |s| < |p| {
    } else if p <= s {
      ReplaceBySelf(s[|p|..], p);
    } else {
      ReplaceBySelf(s[1..], p);
    }
  }

  /** Splitting and joining back with the same separator gives the string back. */
  lemma SplitJoinRoundTrip(s: string, p: string)
    requires |p| > 0
    ensures Join(Split(s, p), p) == s
  {
    ReplaceIsSplitJoin(s, p, p);
    ReplaceBySelf(s, p);
  }

  lemma {:induction false} SplitFirstIsPrefix(s: string, p: string)
    requires |p| > 0
    ensures Split(s, p)[0] <= s
    decreases |s|
  {
    if |s| < |p| {
    } else if p <= s {
    } else {
      SplitFirstIsPrefix(s[1..], p);
    }
  }

  /** A string that `p` is not a prefix of, and whose tail has no `p`, has no `p`. */
  lemma NotContainsCons(c: char, t: string, p: string, s: string)
    requires |p| > 0 && [c] + t <= s && !(p <= s) && !Contains(t, p)
    ensures !Contains([c] + t, p)
  {
    var x := [c] + t;
    assert x[1..] == t;
    if |p| <= |x| {
      assert x[..|p|] == s[..|p|];
    }
  }

  /** No piece produced by `Split` contains the separator: every occurrence was cut out. */
  lemma {:induction false} SplitPartsFree(s: string, p: string)
    requires |p| > 0
    ensures forall i :: 0 <= i < |Split(s, p)| ==> !Contains(Split(s, p)[i], p)
    decreases |s|
  {
    if |s| < |p| {
      ShortNotContains(s, p);
    } else if p <= s {
      SplitPartsFree(s[|p|..], p);
      ShortNotContains("", p);
      var rest := Split(s[|p|..], p);
      assert forall i :: 1 <= i < |[""] + rest| ==> ([""] + rest)[i] == rest[i - 1];
    } else {
      SplitPartsFree(s[1..], p);
      var rest := Split(s[1..], p);
      SplitFirstIsPrefix(s[1..], p);
      assert [s[0]] + rest[0] <= s;
      NotContainsCons(s[0], rest[0], p, s);
      var parts := [[s[0]] + rest[0]] + rest[1..];
      assert forall i :: 1 <= i < |parts| ==> parts[i] == rest[i];
    }
  }

  /** Text without the pattern is left unchanged by `replace`. */
  lemma {:induction false} ReplaceAbsent(s: string, p: string, r: string)
    requires |p| > 0 && !Contains(s, p)
    ensures ReplaceAll(s, p, r) == s
    decreases |s|
  {
    if |s| < |p| {
    } else {
      assert !(p <= s);
      ReplaceAbsent(s[1..], p, r);
    }
  }

  /** Text without the separator character splits into itself alone. */
  lemma {:induction false} SplitNoChar(s: string, c: char)
    requires c !in s
    ensures Split(s, [c]) == [s]
    decreases |s|
  {
    if |s| >= 1 {
      assert s[0] != c && s[..1] == [s[0]];
      assert !([c] <= s);
      SplitNoChar(s[1..], c);
      assert [s[0]] + s[1..] == s;
    }
  }

  /** Splitting at the first separator character. */
  lemma {:induction false} SplitAtChar(a: string, b: string, c: char)
    requires c !in a
    ensures Split(a + [c] + b, [c]) == [a] + Split(b, [c])
    decreases |a|
  {
    var s := a + [c] + b;
    if a == [] {
      assert s == [c] + b && [c] <= s && s[1..] == b;
    } else {
      assert s[0] == a[0] && !([c] <= s);
      assert s[1..] == a[1..] + [c] + b;
      SplitAtChar(a[1..], b, c);
      assert [a[0]] + a[1..] == a;
    }
  }

  /** A string lacking one character of `p` cannot contain `p`. */
  lemma {:induction false} MissingCharNotContains(s: string, p: string, c: char)
    requires c in p && c !in s
    ensures !Contains(s, p)
    decreases |s|
  {
    if s != [] {
      MissingCharNotContains(s[1..], p, c);
    }
  }

  /** Every character of a replacement's output comes from the text or the replacement. */
  lemma {:induction false} ReplaceChars(s: string, p: string, r: string, d: char)
    requires |p| > 0 && d !in s && d !in r
    ensures d !in ReplaceAll(s, p, r)
    decreases |s|
  {
    if |s| < |p| {
    } else if p <= s {
      ReplaceChars(s[|p|..], p, r, d);
    } else {
      ReplaceChars(s[1..], p, r, d);
    }
  }

  /** Replacing a single character by text without it removes that character. */
  lemma {:induction false} ReplaceCharGone(s: string, c: char, r: string)
    requires c !in r
    ensures c !in ReplaceAll(s, [c], r)
    decreases |s|
  {
    if |s| < 1 {
    } else if [c] <= s {
      ReplaceCharGone(s[1..], c, r);
    } else {
      assert s[0] != c;
      ReplaceCharGone(s[1..], c, r);
    }
  }

  /** `s.count(p)`: the number of leftmost, non-overlapping occurrences. */
  function CountOf(s: string, p: string): nat
    requires |p| > 0
    decreases |s|
  {
    if |s| < |p| then 0
    else if p <= s then 1 + CountOf(s[|p|..], p)
    else CountOf(s[1..], p)
  }

  /** The number of non-overlapping occurrences is one less than the number of pieces. */
  lemma {:induction false} CountIsPiecesMinusOne(s: string, p: string)
    requires |p| > 0
    ensures CountOf(s, p) == |Split(s, p)| - 1
    decreases |s|
  {
    if |s| < |p| {
    } else if p <= s {
      CountIsPiecesMinusOne(s[|p|..], p);
    } else {
      CountIsPiecesMinusOne(s[1..], p);
    }
  }

  /** Counting a two-character pattern is additive across a cut that splits no occurrence. */
  lemma {:induction false} CountConcat2(a: string, b: string, p: string)
    requires |p| == 2
    requires a == [] || a[|a| - 1] != p[0]
    ensures CountOf(a + b, p) == CountOf(a, p) + CountOf(b, p)
    decreases |a|
  {
    if a == [] {
      assert a + b == b;
    } else if |a| == 1 {
      assert !(p <= a + b);
      if |a + b| >= 2 {
        assert (a + b)[1..] == b;
      }
    } else {
      if p <= a {
        assert p <= a + b;
        assert (a + b)[2..] == a[2..] + b;
        CountConcat2(a[2..], b, p);
      } else {
        assert (a + b)[..2] == a[..2];
        assert (a + b)[1..] == a[1..] + b;
        CountConcat2(a[1..], b, p);
      }
    }
  }

  // ---------------------------------------------------------------- lines

  /** Index of the first line boundary at or after the start, or `|s|`. */
  function LineEnd(s: string): (k: nat)
    ensures k <= |s| && (k < |s| ==> IsLineBreak(s[k]))
    ensures forall i :: 0 <= i < k ==> !IsLineBreak(s[i])
  {
    if s == [] then 0 else if IsLineBreak(s[0]) then 0 else 1 + LineEnd(s[1..])
  }

  /** `str.splitlines()`: no trailing empty line, `\r\n` is one boundary. */
  function SplitLines(s: string): (lines: seq<string>)
    ensures forall i :: 0 <= i < |lines| ==> forall j :: 0 <= j < |lines[i]| ==> !IsLineBreak(lines[i][j])
    decreases |s|
  {
    if s == [] then []
    else
      var k := LineEnd(s);
      if k == |s| then [s]
      else
        var skip := if s[k] == '\r' && k + 1 < |s| && s[k + 1] == '\n' then 2 else 1;
        [s[..k]] + SplitLines(s[k + skip..])
  }

  /** Only whitespace (or nothing): exactly the strings that `strip` empties. */
  predicate Blank(s: string) { forall i :: 0 <= i < |s| ==> IsSpace(s[i]) }

  lemma BlankIffStripEmpty(s: string)
    ensures Blank(s) <==> Strip(s) == ""
  {
    var l := LStrip(s);
    if l != [] {
      assert !IsSpace(l[0]);
    }
  }

  /** Index of the first line that is not blank after stripping, or `|lines|`. */
  function FirstNonBlankIndex(lines: seq<string>): (k: nat)
    ensures k <= |lines| && (k < |lines| ==> !Blank(lines[k]))
    ensures forall i :: 0 <= i < k ==> Blank(lines[i])
  {
    if lines == [] then 0
    else if !Blank(lines[0]) then 0
    else
      var k := FirstNonBlankIndex(lines[1..]);
      assert forall i :: 1 <= i < |lines| ==> lines[i] == lines[1..][i - 1];
      1 + k
  }

  /** The first line that is not blank, stripped; "" when there is none. This is the
      `for line in reply.splitlines(): line = line.strip(); if line: ...; break` idiom. */
  function FirstNonBlank(lines: seq<string>): (r: string)
    ensures r == "" <==> forall i :: 0 <= i < |lines| ==> Blank(lines[i])
  {
    var k := FirstNonBlankIndex(lines);
    if k < |lines| then BlankIffStripEmpty(lines[k]); Strip(lines[k]) else ""
  }

  /** No line boundary anywhere in `s`. */
  predicate OneLine(s: string) { forall j :: 0 <= j < |s| ==> !IsLineBreak(s[j]) }

  /** A non-empty line without boundaries splits into itself. */
  lemma SplitLinesSingle(s: string)
    requires s != [] && OneLine(s)
    ensures SplitLines(s) == [s]
  {
    assert LineEnd(s) == |s|;
  }

  /** Every line `splitlines` produces is one line. */
  lemma SplitLinesOneLine(s: string, i: nat)
    requires i < |SplitLines(s)|
    ensures OneLine(SplitLines(s)[i])
  {
  }

  /** Stripping, and any slice, keep a one-line string on one line. */
  lemma OneLineSlice(s: string, a: nat, b: nat)
    requires OneLine(s) && a <= b <= |s|
    ensures OneLine(s[a..b])
  {
    forall j | 0 <= j < b - a ensures !IsLineBreak(s[a..b][j]) {
      assert s[a..b][j] == s[a + j];
    }
  }

  lemma OneLineStrip(s: string)
    requires OneLine(s)
    ensures OneLine(Strip(s))
  {
    var l := LStrip(s);
    OneLineSlice(s, |s| - |l|, |s|);
    OneLineSlice(l, 0, |RStrip(l)|);
  }

  /** A string that starts and ends with a non-space character is its own strip. */
  lemma StripClean(s: string)
    requires s == [] || (!IsSpace(s[0]) && !IsSpace(s[|s| - 1]))
    ensures Strip(s) == s
  {
    assert LStrip(s) == s;
  }

  lemma UpperIdentity(s: string)
    requires forall j :: 0 <= j < |s| ==> !('a' <= s[j] <= 'z')
    ensures Upper(s) == s
  {
  }

  lemma LowerIdentity(s: string)
    requires forall j :: 0 <= j < |s| ==> !('A' <= s[j] <= 'Z')
    ensures Lower(s) == s
  {
  }

  // ---------------------------------------------------------------- slicing

  /** `s[:k]` with Python's clamping and negative indices. */
  function PyPrefix<T>(s: seq<T>, k: int): (r: seq<T>)
    ensures r <= s
    ensures |r| == if k >= 0 then (if k < |s| then k else |s|) else (if |s| + k > 0 then |s| + k else 0)
  {
    if k >= 0 then (if k < |s| then s[..k] else s)
    else if |s| + k > 0 then s[..|s| + k] else []
  }

  // ---------------------------------------------------------------- numbers

  function DigitChar(d: nat): char
    requires d < 10
  {
    ('0' as int + d) as char
  }

  /** `str(n)` for a natural number. */
  function NatToString(n: nat): (r: string)
    ensures r != [] && forall i :: 0 <= i < |r| ==> IsDigit(r[i])
    decreases n
  {
    if n < 10 then [DigitChar(n)] else NatToString(n / 10) + [DigitChar(n % 10)]
  }

  /** `str(i)` for any integer. */
  function IntToString(i: int): string {
    if i < 0 then "-" + NatToString(-i) else NatToString(i)
  }

  function DigitValue(c: char): nat
    requires IsDigit(c)
  {
    c as int - '0' as int
  }

  /** `int(s)` for a non-empty string of ASCII digits. */
  function DigitsValue(s: string): nat
    requires forall i :: 0 <= i < |s| ==> IsDigit(s[i])
  {
    if s == [] then 0 else DigitsValue(s[..|s| - 1]) * 10 + DigitValue(s[|s| - 1])
  }

  /** `int(s)` on text: an optional sign and ASCII digits, with surrounding whitespace;
      anything else raises (None). */
  function ParseInt(s: string): Option<int> {
    ParseSigned(Strip(s))
  }

  /** An optional sign followed by ASCII digits. */
  function ParseSigned(t: string): Option<int> {
    var neg := t != [] && t[0] == '-';
    var digits := if t != [] && (t[0] == '-' || t[0] == '+') then t[1..] else t;
    if digits != [] && forall i :: 0 <= i < |digits| ==> IsDigit(digits[i]) then
      Some(if neg then -(DigitsValue(digits) as int) else DigitsValue(digits) as int)
    else None
  }

  /** Printed digits are their own strip. */
  lemma DigitsStripClean(d: string, sign: string)
    requires d != [] && forall i :: 0 <= i < |d| ==> IsDigit(d[i])
    requires sign == "" || sign == "-"
    ensures Strip(sign + d) == sign + d
  {
    var s := sign + d;
    assert s[|s| - 1] == d[|d| - 1];
    assert IsDigit(s[|s| - 1]);
    assert s[0] == '-' || IsDigit(s[0]);
    StripClean(s);
  }

  /** A sign and digits read back as the signed value of the digits. */
  lemma ParseSignedDigits(d: string, sign: string)
    requires d != [] && forall i :: 0 <= i < |d| ==> IsDigit(d[i])
    requires sign == "" || sign == "-"
    ensures ParseSigned(sign + d) == Some(if sign == "-" then -(DigitsValue(d) as int) else DigitsValue(d) as int)
  {
    var t := sign + d;
    if sign == "-" {
      assert t[0] == '-' && t[1..] == d;
      ParseSignedOf(t, true, d);
    } else {
      assert t == d;
      assert IsDigit(d[0]);
      ParseSignedOf(t, false, d);
    }
  }

  /** `ParseSigned` once the sign and the digits are known. */
  lemma ParseSignedOf(t: string, neg: bool, digits: string)
    requires neg == (t != [] && t[0] == '-')
    requires digits == if t != [] && (t[0] == '-' || t[0] == '+') then t[1..] else t
    requires digits != [] && forall i :: 0 <= i < |digits| ==> IsDigit(digits[i])
    ensures ParseSigned(t) == Some(if neg then -(DigitsValue(digits) as int) else DigitsValue(digits) as int)
  {
  }

  /** `int(str(i)) == i`. */
  lemma ParseIntRoundTrip(i: int)
    ensures ParseInt(IntToString(i)) == Some(i)
  {
    var n: nat := if i < 0 then -i else i;
    var d := NatToString(n);
    NatToStringRoundTrip(n);
    var sign := if i < 0 then "-" else "";
    DigitsStripClean(d, sign);
    ParseSignedDigits(d, sign);
    assert IntToString(i) == sign + d;
  }

  /** Reading back what `NatToString` printed gives the number. */
  lemma {:induction false} NatToStringRoundTrip(n: nat)
    ensures DigitsValue(NatToString(n)) == n
    decreases n
  {
    if n >= 10 {
      NatToStringRoundTrip(n / 10);
      var s := NatToString(n);
      assert s[..|s| - 1] == NatToString(n / 10);
    }
  }
}
