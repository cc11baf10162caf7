/**
 * String operations of the JavaScript runtime that the application relies on:
 * `trim`, ASCII case mapping, UTF-16 length, `split`, and decimal rendering of
 * non-negative integers.
 */
module Text {

  /** WhiteSpace and LineTerminator code points, the ones `String.prototype.trim` strips
      (ECMA-262, sections 12.2 and 12.3). */
  predicate IsJsSpace(c: char) {
    c == '\t' || c == '\n' || c == '\U{000B}' || c == '\U{000C}' || c == '\r' || c == ' '
    || c == '\U{00A0}' || c == '\U{1680}' || ('\U{2000}' <= c <= '\U{200A}')
    || c == '\U{2028}' || c == '\U{2029}' || c == '\U{202F}' || c == '\U{205F}'
    || c == '\U{3000}' || c == '\U{FEFF}'
  }

  /** Every character of `s` is white space (the empty string included). */
  predicate IsBlank(s: string) {
    forall i :: 0 <= i < |s| ==> IsJsSpace(s[i])
  }

  /** Number of leading white-space characters. */
  function LeadingSpaces(s: string): (k: nat)
    ensures k <= |s|
    ensures IsBlank(s[..k])
    ensures k < |s| ==> !IsJsSpace(s[k])
  {
    if s == [] || !IsJsSpace(s[0]) then 0
    else
      var k := LeadingSpaces(s[1..]);
      assert s[1..][..k] == s[1..k + 1];
      k + 1
  }

  /** Number of trailing white-space characters. */
  function TrailingSpaces(s: string): (k: nat)
    ensures k <= |s|
    ensures IsBlank(s[|s| - k..])
    ensures k < |s| ==> !IsJsSpace(s[|s| - k - 1])
  {
    if s == [] || !IsJsSpace(s[|s| - 1]) then 0
    else
      var k := TrailingSpaces(s[..|s| - 1]);
      assert s[..|s| - 1][|s| - 1 - k..] == s[|s| - 1 - k..|s| - 1];
      k + 1
  }

  /** `s.trim()` */
  function Trim(s: string): (r: string)
  {
    var t := s[LeadingSpaces(s)..];
    t[..|t| - TrailingSpaces(t)]
  }

  /** The trimmed text is a contiguous piece of the input with only white space cut off,
      and it neither starts nor ends with white space. */
  lemma TrimShape(s: string)
    ensures exists a, b :: 0 <= a <= b <= |s| && Trim(s) == s[a..b] && IsBlank(s[..a]) && IsBlank(s[b..])
    ensures Trim(s) != [] ==> !IsJsSpace(Trim(s)[0]) && !IsJsSpace(Trim(s)[|Trim(s)| - 1])
  {
    var a, b := TrimBounds(s);
  }

  /** Where `trim` cuts `s`. */
  lemma TrimBounds(s: string) returns (a: nat, b: nat)
    ensures a <= b <= |s| && Trim(s) == s[a..b] && IsBlank(s[..a]) && IsBlank(s[b..])
    ensures a < b ==> !IsJsSpace(s[a]) && !IsJsSpace(s[b - 1])
  {
    a := LeadingSpaces(s);
    var t := s[a..];
    var k := TrailingSpaces(t);
    b := |s| - k;
    assert t[..|t| - k] == s[a..b];
    assert t[|t| - k..] == s[b..];
    if a < b {
      assert t[|t| - k - 1] == s[b - 1];
    }
  }

  /** Trimming yields the empty string exactly for blank input. */
  lemma TrimEmptyIffBlank(s: string)
    ensures Trim(s) == [] <==> IsBlank(s)
  {
    var a, b := TrimBounds(s);
    if IsBlank(s) {
      assert a == b;
    }
    if Trim(s) == [] {
      assert s == s[..a] + s[b..];
      BlankConcat(s[..a], s[b..]);
    }
  }

  /** `Trim` is characterised by its shape: cutting blank ends off a piece that neither
      starts nor ends with white space yields that piece. */
  lemma TrimOfShape(p: string, m: string, q: string)
    requires IsBlank(p) && IsBlank(q)
    requires m != [] ==> !IsJsSpace(m[0]) && !IsJsSpace(m[|m| - 1])
    ensures Trim(p + m + q) == m
  {
    var s := p + m + q;
    if m == [] {
      assert IsBlank(s) by {
        forall i | 0 <= i < |s| ensures IsJsSpace(s[i]) {
          if i < |p| { assert s[i] == p[i]; } else { assert s[i] == q[i - |p|]; }
        }
      }
      TrimEmptyIffBlank(s);
    } else {
      var a := LeadingSpaces(s);
      assert s[|p|] == m[0];
      assert a == |p|;
      var t := s[a..];
      assert t == m + q;
      var k := TrailingSpaces(t);
      assert t[|t| - 1 - |q|] == m[|m| - 1];
      assert k == |q|;
      assert t[..|t| - k] == m;
    }
  }

  /** A text that neither starts nor ends with white space is its own trim. */
  lemma TrimUnpadded(m: string)
    requires m != [] ==> !IsJsSpace(m[0]) && !IsJsSpace(m[|m| - 1])
    ensures Trim(m) == m
  {
    assert [] + m + [] == m;
    TrimOfShape([], m, []);
  }

  /** White space around a text does not change what `trim` returns. */
  lemma TrimIgnoresPadding(pre: string, s: string, post: string)
    requires IsBlank(pre) && IsBlank(post)
    ensures Trim(pre + s + post) == Trim(s)
  {
    var a, b := TrimBounds(s);
    var m := s[a..b];
    BlankConcat(pre, s[..a]);
    BlankConcat(s[b..], post);
    Regroup(pre, s, post, a, b);
    TrimOfShape(pre + s[..a], m, s[b..] + post);
  }

  lemma Regroup(pre: string, s: string, post: string, a: nat, b: nat)
    requires a <= b <= |s|
    ensures pre + s + post == (pre + s[..a]) + s[a..b] + (s[b..] + post)
  {
    CutInThree(s, a, b);
  }

  lemma CutInThree<T>(s: seq<T>, a: nat, b: nat)
    requires a <= b <= |s|
    ensures s == s[..a] + s[a..b] + s[b..]
  {
  }

  lemma BlankConcat(x: string, y: string)
    requires IsBlank(x) && IsBlank(y)
    ensures IsBlank(x + y)
  {
    forall i | 0 <= i < |x + y| ensures IsJsSpace((x + y)[i]) {
      if i >= |x| { assert (x + y)[i] == y[i - |x|]; }
    }
  }

  /** ASCII letters only: full Unicode case mapping is not modelled. */
  function LowerChar(c: char): char {
    if 'A' <= c <= 'Z' then (c as int + 32) as char else c
  }

  function UpperChar(c: char): char {
    if 'a' <= c <= 'z' then (c as int - 32) as char else c
  }

  /** `s.toLowerCase()` on ASCII letters */
  function ToLower(s: string): (r: string)
    ensures |r| == |s|
    ensures forall i :: 0 <= i < |s| ==> r[i] == LowerChar(s[i])
  {
    seq(|s|, i requires 0 <= i < |s| => LowerChar(s[i]))
  }

  /** `s.toUpperCase()` on ASCII letters */
  function ToUpper(s: string): (r: string)
    ensures |r| == |s|
    ensures forall i :: 0 <= i < |s| ==> r[i] == UpperChar(s[i])
  {
    seq(|s|, i requires 0 <= i < |s| => UpperChar(s[i]))
  }

  lemma ToLowerConcat(a: string, b: string)
    ensures ToLower(a + b) == ToLower(a) + ToLower(b)
  {
  }

  /** White space has no case, so lower-casing leaves a blank text as it is. */
  lemma ToLowerBlank(s: string)
    requires IsBlank(s)
    ensures ToLower(s) == s
  {
  }

  /** Case mapping never turns a non-space into white space or back, so `trim` and
      `toLowerCase` commute. */
  lemma TrimLowerCommute(s: string)
    ensures Trim(ToLower(s)) == ToLower(Trim(s))
  {
    var a, b := TrimBounds(s);
    CutInThree(s, a, b);
    TrimLowerOfShape(s[..a], s[a..b], s[b..]);
  }

  lemma TrimLowerOfShape(p: string, m: string, q: string)
    requires IsBlank(p) && IsBlank(q)
    requires m != [] ==> !IsJsSpace(m[0]) && !IsJsSpace(m[|m| - 1])
    ensures Trim(ToLower(p + m + q)) == ToLower(m)
  {
    ToLowerConcat(p + m, q);
    ToLowerConcat(p, m);
    ToLowerBlank(p);
    ToLowerBlank(q);
    var l := ToLower(m);
    if m != [] {
      LowerKeepsSpace(m[0]);
      LowerKeepsSpace(m[|m| - 1]);
      assert l[0] == LowerChar(m[0]) && l[|l| - 1] == LowerChar(m[|m| - 1]);
    }
    TrimOfShape(p, l, q);
  }

  lemma LowerKeepsSpace(c: char)
    ensures IsJsSpace(LowerChar(c)) <==> IsJsSpace(c)
  {
  }

  /** Code units a character occupies in UTF-16. */
  function Utf16Units(c: char): nat {
    if c as int >= 0x10000 then 2 else 1
  }

  /** `s.length`: JavaScript counts UTF-16 code units, not characters. */
  function Utf16Length(s: string): (n: nat)
    ensures |s| <= n <= 2 * |s|
    ensures n == 0 <==> s == []
  {
    if s == [] then 0 else Utf16Units(s[0]) + Utf16Length(s[1..])
  }

  predicate StartsWith(s: string, p: string) {
    |p| <= |s| && s[..|p|] == p
  }

  /** Appending keeps a prefix. */
  lemma StartsWithAppend(s: string, t: string, p: string)
    requires StartsWith(s, p)
    ensures StartsWith(s + t, p)
  {
    assert (s + t)[..|p|] == s[..|p|];
  }

  /** Regrouping a concatenation. */
  lemma Reassociate<T>(x: seq<T>, y: seq<T>, z: seq<T>)
    ensures x + (y + z) == (x + y) + z
  {
  }

  /** `parts.join(sep)` */
  function Join(parts: seq<string>, sep: char): string
    requires |parts| >= 1
  {
    if |parts| == 1 then parts[0] else parts[0] + [sep] + Join(parts[1..], sep)
  }

  /** `s.split(sep)` for a one-character separator: the pieces contain no separator and
      joining them back gives `s`. */
  function Split(s: string, sep: char): (parts: seq<string>)
    ensures |parts| >= 1
    ensures forall i :: 0 <= i < |parts| ==> sep !in parts[i]
    ensures Join(parts, sep) == s
  {
    if s == [] then [[]]
    else
      var rest := Split(s[1..], sep);
      if s[0] == sep then
        assert Join([[]] + rest, sep) == [sep] + Join(rest, sep);
        [[]] + rest
      else
        var parts := [[s[0]] + rest[0]] + rest[1..];
        assert parts[1..] == rest[1..];
        assert Join(parts, sep) == s by {
          if |rest| > 1 {
            assert Join(rest, sep) == rest[0] + [sep] + Join(rest[1..], sep);
          }
        }
        parts
  }

  /** Splitting the join of separator-free pieces gives the pieces back. */
  lemma {:induction false} SplitJoin(parts: seq<string>, sep: char)
    requires |parts| >= 1
    requires forall i :: 0 <= i < |parts| ==> sep !in parts[i]
    ensures Split(Join(parts, sep), sep) == parts
  {
    JoinUnique(Split(Join(parts, sep), sep), parts, sep);
  }

  lemma {:induction false} JoinUnique(p: seq<string>, q: seq<string>, sep: char)
    requires |p| >= 1 && |q| >= 1
    requires forall i :: 0 <= i < |p| ==> sep !in p[i]
    requires forall i :: 0 <= i < |q| ==> sep !in q[i]
    requires Join(p, sep) == Join(q, sep)
    ensures p == q
  {
    var j := Join(p, sep);
    if |p| > 1 && |q| > 1 {
      assert j == p[0] + [sep] + Join(p[1..], sep);
      assert j == q[0] + [sep] + Join(q[1..], sep);
      FirstPieceEqual(p[0], q[0], Join(p[1..], sep), Join(q[1..], sep), sep);
      assert Join(p[1..], sep) == j[|p[0]| + 1..];
      JoinUnique(p[1..], q[1..], sep);
      assert p == [p[0]] + p[1..];
      assert q == [q[0]] + q[1..];
    }
  }

  lemma SeparatorAt(a: string, x: string, sep: char)
    ensures (a + [sep] + x)[|a|] == sep
  {
  }

  lemma FirstPieceEqual(a: string, b: string, x: string, y: string, sep: char)
    requires sep !in a && sep !in b
    requires a + [sep] + x == b + [sep] + y
    ensures a == b
  {
    var j := a + [sep] + x;
    if |a| == |b| {
      assert a == j[..|a|] == b;
    } else if |a| < |b| {
      SeparatorAt(a, x, sep);
      assert false;
    } else {
      SeparatorAt(b, y, sep);
      assert false;
    }
  }

  /** `s.split(sep).pop()`: the text after the last separator, or all of `s`. */
  function AfterLast(s: string, sep: char): (r: string)
  {
    var parts := Split(s, sep);
    parts[|parts| - 1]
  }

  /** The last piece of a split is a suffix of the input containing no separator, and it
      is preceded by a separator unless it is the whole input. */
  lemma {:induction false} AfterLastSpec(s: string, sep: char)
    ensures sep !in AfterLast(s, sep)
    ensures |AfterLast(s, sep)| <= |s| && s[|s| - |AfterLast(s, sep)|..] == AfterLast(s, sep)
    ensures |AfterLast(s, sep)| < |s| ==> s[|s| - |AfterLast(s, sep)| - 1] == sep
    ensures sep !in s ==> AfterLast(s, sep) == s
  {
    JoinEndsWithLast(Split(s, sep), sep);
  }

  /** Whatever precedes the last separator, the text after it is what `AfterLast` gives. */
  lemma AfterLastAppend(a: string, x: string, sep: char)
    requires sep !in x
    ensures AfterLast(a + [sep] + x, sep) == x
  {
    var s := a + [sep] + x;
    var r := AfterLast(s, sep);
    AfterLastSpec(s, sep);
    SeparatorAt(a, x, sep);
    assert s[|s| - |x|..] == x;
  }

  lemma {:induction false} JoinEndsWithLast(parts: seq<string>, sep: char)
    requires |parts| >= 1
    ensures var j := Join(parts, sep); var l := parts[|parts| - 1];
      |l| <= |j| && j[|j| - |l|..] == l && (|parts| > 1 ==> |l| < |j| && j[|j| - |l| - 1] == sep)
  {
    if |parts| > 1 {
      JoinEndsWithLast(parts[1..], sep);
      assert parts[1..][|parts[1..]| - 1] == parts[|parts| - 1];
      var tail := Join(parts[1..], sep);
      assert Join(parts, sep) == (parts[0] + [sep]) + tail;
      if |parts| == 2 {
        assert tail == parts[1];
      }
    }
  }

  /** Decimal digit characters. */
  function DigitChar(d: nat): char
    requires d < 10
  {
    "0123456789"[d]
  }

  function DigitValue(c: char): nat {
    if '0' <= c <= '9' then c as nat - '0' as nat else 0
  }

  predicate IsDigit(c: char) {
    '0' <= c <= '9'
  }

  /** `${n}` for a non-negative integer: its shortest decimal representation. */
  function NatToString(n: nat): (r: string)
    ensures |r| >= 1 && forall i :: 0 <= i < |r| ==> IsDigit(r[i])
    ensures r[0] == '0' ==> n == 0
  {
    if n < 10 then [DigitChar(n)] else NatToString(n / 10) + [DigitChar(n % 10)]
  }

  /** Reads a string of decimal digits back as a number. */
  function ParseDigits(s: string): nat {
    if s == [] then 0 else 10 * ParseDigits(s[..|s| - 1]) + DigitValue(s[|s| - 1])
  }

  /** Rendering then reading a number gives the number back, so distinct numbers render
      differently. */
  lemma {:induction false} NatToStringRoundTrip(n: nat)
    ensures ParseDigits(NatToString(n)) == n
  {
    if n >= 10 {
      NatToStringRoundTrip(n / 10);
      var r := NatToString(n);
      assert r[..|r| - 1] == NatToString(n / 10);
    }
  }

  lemma NatToStringInjective(m: nat, n: nat)
    ensures NatToString(m) == NatToString(n) ==> m == n
  {
    NatToStringRoundTrip(m);
    NatToStringRoundTrip(n);
  }
}
