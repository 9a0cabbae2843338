/**
 The string primitives the submit handler relies on: `String.prototype.trim`,
 `String.prototype.toUpperCase` and the decimal rendering of an integer inside a
 template literal. Characters are Unicode scalar values; `trim` uses the
 ECMAScript WhiteSpace and LineTerminator code points, and upper-casing is the
 ASCII `a`..`z` mapping (other characters are left alone).
 */
module Text {

  /** ECMAScript WhiteSpace (TAB, VT, FF, ZWNBSP and the Zs category) and LineTerminator (LF, CR, LS, PS). */
  const Whitespace: set<char> := {
    '\t', '\U{000B}', '\U{000C}', '\U{FEFF}',
    ' ', '\U{00A0}', '\U{1680}',
    '\U{2000}', '\U{2001}', '\U{2002}', '\U{2003}', '\U{2004}', '\U{2005}',
    '\U{2006}', '\U{2007}', '\U{2008}', '\U{2009}', '\U{200A}',
    '\U{202F}', '\U{205F}', '\U{3000}',
    '\n', '\r', '\U{2028}', '\U{2029}'
  }

  predicate IsWhitespace(c: char) {
    c in Whitespace
  }

  /** Every character of `s[i..j]` is whitespace. */
  predicate BlankSpan(s: string, i: nat, j: nat)
    requires i <= j <= |s|
  {
    forall k :: i <= k < j ==> IsWhitespace(s[k])
  }

  predicate AllWhitespace(s: string) {
    BlankSpan(s, 0, |s|)
  }

  /** A string that `trim` leaves as it is: empty, or bordered by non-whitespace on both ends. */
  predicate IsTrimmed(s: string) {
    s == [] || (!IsWhitespace(s[0]) && !IsWhitespace(s[|s| - 1]))
  }

  /** Scans forward from `i` over whitespace: the first non-whitespace position at or after `i`, or `|s|`. */
  function SkipForward(s: string, i: nat): (n: nat)
    requires i <= |s|
    ensures i <= n <= |s|
    ensures BlankSpan(s, i, n)
    ensures n < |s| ==> !IsWhitespace(s[n])
    decreases |s| - i
  {
    if i < |s| && IsWhitespace(s[i]) then SkipForward(s, i + 1) else i
  }

  /** Scans backward from `j` over whitespace, never below `lo`: the end of the last non-whitespace character. */
  function SkipBackward(s: string, lo: nat, j: nat): (m: nat)
    requires lo <= j <= |s|
    ensures lo <= m <= j
    ensures BlankSpan(s, m, j)
    ensures m > lo ==> !IsWhitespace(s[m - 1])
    decreases j
  {
    if j > lo && IsWhitespace(s[j - 1]) then SkipBackward(s, lo, j - 1) else j
  }

  /** Where the text `trim` keeps starts: everything before it is whitespace. */
  function TrimFrom(s: string): (a: nat)
    ensures a <= |s|
    ensures BlankSpan(s, 0, a)
    ensures a < |s| ==> !IsWhitespace(s[a])
  {
    SkipForward(s, 0)
  }

  /** Where the text `trim` keeps ends: everything from it on is whitespace. */
  function TrimTo(s: string): (b: nat)
    ensures TrimFrom(s) <= b <= |s|
    ensures BlankSpan(s, b, |s|)
    ensures b > TrimFrom(s) ==> !IsWhitespace(s[b - 1])
  {
    SkipBackward(s, TrimFrom(s), |s|)
  }

  /** `String.prototype.trim`: drops whitespace from both ends and nothing else. */
  function Trim(s: string): (r: string)
    ensures IsTrimmed(r) && |r| <= |s|
  {
    s[TrimFrom(s)..TrimTo(s)]
  }

  lemma {:induction false} SkipForwardStopsAt(s: string, i: nat, n: nat)
    requires i <= n <= |s|
    requires BlankSpan(s, i, n)
    requires n < |s| ==> !IsWhitespace(s[n])
    ensures SkipForward(s, i) == n
    decreases n - i
  {
    if i < n {
      SkipForwardStopsAt(s, i + 1, n);
    }
  }

  lemma {:induction false} SkipBackwardStopsAt(s: string, lo: nat, j: nat, m: nat)
    requires lo <= m <= j <= |s|
    requires BlankSpan(s, m, j)
    requires m > lo ==> !IsWhitespace(s[m - 1])
    ensures SkipBackward(s, lo, j) == m
    decreases j - m
  {
    if m < j {
      SkipBackwardStopsAt(s, lo, j - 1, m);
    }
  }

  /**
   `trim` is determined by where the kept text lies: if `s[..a]` and `s[b..]` are
   whitespace and `s[a..b]` is trimmed, then `trim` returns `s[a..b]`.
   */
  lemma TrimIsKeptText(s: string, a: nat, b: nat)
    requires a <= b <= |s|
    requires BlankSpan(s, 0, a) && BlankSpan(s, b, |s|)
    requires a < b ==> !IsWhitespace(s[a]) && !IsWhitespace(s[b - 1])
    ensures Trim(s) == s[a..b]
  {
    if a < b {
      SkipForwardStopsAt(s, 0, a);
      SkipBackwardStopsAt(s, a, |s|, b);
    } else {
      SkipForwardStopsAt(s, 0, |s|);
      SkipBackwardStopsAt(s, |s|, |s|, |s|);
    }
  }

  /** `trim` removes exactly the whitespace padding around an already trimmed string. */
  lemma TrimRemovesPadding(front: string, t: string, back: string)
    requires AllWhitespace(front) && AllWhitespace(back) && IsTrimmed(t)
    ensures Trim(front + t + back) == t
  {
    var s := front + t + back;
    assert forall k :: 0 <= k < |front| ==> s[k] == front[k];
    assert forall k :: |front| <= k < |front| + |t| ==> s[k] == t[k - |front|];
    assert forall k :: |front| + |t| <= k < |s| ==> s[k] == back[k - |front| - |t|];
    TrimIsKeptText(s, |front|, |front| + |t|);
    assert s[|front|..|front| + |t|] == t;
  }

  /** Extra whitespace around the input never changes what `trim` returns. */
  lemma TrimIgnoresPadding(front: string, s: string, back: string)
    requires AllWhitespace(front) && AllWhitespace(back)
    ensures Trim(front + s + back) == Trim(s)
  {
    var p := front + s + back;
    var a, b := |front| + TrimFrom(s), |front| + TrimTo(s);
    PaddedPositions(front, s, back);
    PaddedMiddle(front, s, back);
    TrimIsKeptText(p, a, b);
  }

  /** In `front + s + back`, the part `trim` keeps of `s` sits at the same place, shifted by `|front|`. */
  lemma PaddedMiddle(front: string, s: string, back: string)
    ensures var p, a, b := front + s + back, |front| + TrimFrom(s), |front| + TrimTo(s);
      && (a < b ==> p[a] == s[TrimFrom(s)] && p[b - 1] == s[TrimTo(s) - 1])
      && p[a..b] == Trim(s)
  {
    var p, a, b := front + s + back, |front| + TrimFrom(s), |front| + TrimTo(s);
    assert forall k :: 0 <= k < b - a ==> p[a..b][k] == s[TrimFrom(s)..TrimTo(s)][k];
  }

  /** In `front + s + back`, the padding plus the whitespace `trim` would drop from `s` is all whitespace. */
  lemma PaddedPositions(front: string, s: string, back: string)
    requires AllWhitespace(front) && AllWhitespace(back)
    ensures BlankSpan(front + s + back, 0, |front| + TrimFrom(s))
    ensures BlankSpan(front + s + back, |front| + TrimTo(s), |front + s + back|)
  {
    var p := front + s + back;
    forall k | 0 <= k < |front| + TrimFrom(s)
      ensures IsWhitespace(p[k])
    {
      if k < |front| {
        assert p[k] == front[k];
      } else {
        assert p[k] == s[k - |front|];
      }
    }
    forall k | |front| + TrimTo(s) <= k < |p|
      ensures IsWhitespace(p[k])
    {
      if k < |front| + |s| {
        assert p[k] == s[k - |front|];
      } else {
        assert p[k] == back[k - |front| - |s|];
      }
    }
  }

  lemma TrimIdempotent(s: string)
    ensures Trim(Trim(s)) == Trim(s)
  {
    var t := Trim(s);
    TrimIsKeptText(t, 0, |t|);
    assert t[0..|t|] == t;
  }

  predicate IsLowerAscii(c: char) {
    'a' <= c <= 'z'
  }

  /** Upper-cases one character: ASCII `a`..`z` become `A`..`Z`, everything else is unchanged. */
  function UpperChar(c: char): (u: char)
    ensures !IsLowerAscii(u)
    ensures IsWhitespace(u) <==> IsWhitespace(c)
    ensures u != c ==> IsLowerAscii(c) && 'A' <= u <= 'Z' && u as int + 32 == c as int
  {
    if IsLowerAscii(c) then (c as int - 32) as char else c
  }

  /** `String.prototype.toUpperCase`, restricted to the ASCII letter mapping. */
  function ToUpper(s: string): (r: string)
    ensures |r| == |s|
    ensures forall i :: 0 <= i < |s| ==> !IsLowerAscii(r[i])
    ensures forall i :: 0 <= i < |s| ==> r[i] == UpperChar(s[i])
  {
    seq(|s|, i requires 0 <= i < |s| => UpperChar(s[i]))
  }

  lemma ToUpperIdempotent(s: string)
    ensures ToUpper(ToUpper(s)) == ToUpper(s)
  {
  }

  lemma ToUpperKeepsWhitespace(s: string)
    ensures AllWhitespace(s) <==> AllWhitespace(ToUpper(s))
    ensures IsTrimmed(s) <==> IsTrimmed(ToUpper(s))
  {
    assert forall i :: 0 <= i < |s| ==> ToUpper(s)[i] == UpperChar(s[i]);
  }

  /** Upper-casing keeps a run of whitespace whitespace. */
  lemma UpperBlankSpan(s: string, i: nat, j: nat)
    requires i <= j <= |s| && BlankSpan(s, i, j)
    ensures BlankSpan(ToUpper(s), i, j)
  {
    forall k | i <= k < j
      ensures IsWhitespace(ToUpper(s)[k])
    {
      assert ToUpper(s)[k] == UpperChar(s[k]);
    }
  }

  /** Upper-casing a slice is slicing the upper-cased string. */
  lemma UpperSlice(s: string, a: nat, b: nat)
    requires a <= b <= |s|
    ensures ToUpper(s)[a..b] == ToUpper(s[a..b])
  {
    assert forall k :: 0 <= k < b - a ==> ToUpper(s)[a..b][k] == ToUpper(s[a..b])[k];
  }

  /** Trimming and upper-casing commute, because upper-casing never touches whitespace. */
  lemma TrimToUpperCommute(s: string)
    ensures Trim(ToUpper(s)) == ToUpper(Trim(s))
  {
    var u, a, b := ToUpper(s), TrimFrom(s), TrimTo(s);
    UpperBlankSpan(s, 0, a);
    UpperBlankSpan(s, b, |s|);
    assert a < b ==> u[a] == UpperChar(s[a]) && u[b - 1] == UpperChar(s[b - 1]);
    TrimIsKeptText(u, a, b);
    UpperSlice(s, a, b);
  }

  // ---------------------------------------------------------------------------
  // Decimal rendering of a non-negative integer, as `${n}` produces it.

  predicate IsDigit(c: char) {
    '0' <= c <= '9'
  }

  predicate AllDigits(s: string) {
    forall i :: 0 <= i < |s| ==> IsDigit(s[i])
  }

  function DigitChar(d: nat): (c: char)
    requires d < 10
    ensures IsDigit(c)
  {
    ('0' as int + d) as char
  }

  function DigitValue(c: char): (d: nat)
    requires IsDigit(c)
    ensures d < 10 && DigitChar(d) == c
  {
    c as int - '0' as int
  }

  /** Base-10 digits of `n`, most significant first, without leading zeros. */
  function DecimalString(n: nat): (s: string)
    ensures |s| >= 1 && AllDigits(s)
    ensures s[0] == '0' ==> n == 0 && |s| == 1
  {
    if n < 10 then [DigitChar(n)] else DecimalString(n / 10) + [DigitChar(n % 10)]
  }

  /** Reads a string of decimal digits back as a number. */
  function ParseDecimal(s: string): nat
    requires AllDigits(s)
  {
    if s == [] then 0 else ParseDecimal(s[..|s| - 1]) * 10 + DigitValue(s[|s| - 1])
  }

  lemma {:induction false} DecimalRoundTrip(n: nat)
    ensures ParseDecimal(DecimalString(n)) == n
  {
    var s := DecimalString(n);
    if n >= 10 {
      DecimalRoundTrip(n / 10);
      assert s[..|s| - 1] == DecimalString(n / 10);
    }
  }
}
