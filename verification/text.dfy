/**
 * The few `java.lang.String` operations the trade pipeline relies on:
 * `toUpperCase`, `toLowerCase`, `trim`, `isBlank` and `endsWith`.
 *
 * Case mapping is restricted to the ASCII letters (other characters are left
 * unchanged); `trim` and `isBlank` are modelled exactly as Java defines them.
 */
module Text {

  // ---------------------------------------------------------------- case

  predicate IsLowerAscii(c: char) { 'a' <= c <= 'z' }

  predicate IsUpperAscii(c: char) { 'A' <= c <= 'Z' }

  /** `Character.toUpperCase` on one character, ASCII letters only. */
  function UpperChar(c: char): (u: char)
    ensures !IsLowerAscii(u)
    ensures !IsLowerAscii(c) ==> u == c
  {
    if IsLowerAscii(c) then (c as int - 32) as char else c
  }

  /** `Character.toLowerCase` on one character, ASCII letters only. */
  function LowerChar(c: char): (l: char)
    ensures !IsUpperAscii(l)
    ensures !IsUpperAscii(c) ==> l == c
  {
    if IsUpperAscii(c) then (c as int + 32) as char else c
  }

  /** `String.toUpperCase()`: maps every character, keeps the length. */
  function ToUpper(s: string): (r: string)
    ensures |r| == |s|
    ensures forall i :: 0 <= i < |s| ==> r[i] == UpperChar(s[i])
  {
    seq(|s|, i requires 0 <= i < |s| => UpperChar(s[i]))
  }

  /** `String.toLowerCase()`: maps every character, keeps the length. */
  function ToLower(s: string): (r: string)
    ensures |r| == |s|
    ensures forall i :: 0 <= i < |s| ==> r[i] == LowerChar(s[i])
  {
    seq(|s|, i requires 0 <= i < |s| => LowerChar(s[i]))
  }

  /** No lower-case ASCII letter occurs in `s`. */
  predicate IsUpperCased(s: string)
  {
    forall i :: 0 <= i < |s| ==> !IsLowerAscii(s[i])
  }

  /** Upper-casing leaves no lower-case letter behind and is idempotent. */
  lemma ToUpperUpperCases(s: string)
    ensures IsUpperCased(ToUpper(s))
    ensures ToUpper(ToUpper(s)) == ToUpper(s)
  {
  }

  /** An upper-cased string is its own upper-case form. */
  lemma ToUpperFixesUpperCased(s: string)
    requires IsUpperCased(s)
    ensures ToUpper(s) == s
  {
  }

  lemma ToUpperAppend(a: string, b: string)
    ensures ToUpper(a + b) == ToUpper(a) + ToUpper(b)
  {
    assert forall i :: 0 <= i < |a + b| ==> ToUpper(a + b)[i] == (ToUpper(a) + ToUpper(b))[i];
  }

  lemma ToLowerAppend(a: string, b: string)
    ensures ToLower(a + b) == ToLower(a) + ToLower(b)
  {
    assert forall i :: 0 <= i < |a + b| ==> ToLower(a + b)[i] == (ToLower(a) + ToLower(b))[i];
  }

  // ---------------------------------------------------------------- blanks

  /**
   * `Character.isWhitespace`: the Unicode space, line and paragraph separators
   * other than the three no-break spaces (U+00A0, U+2007, U+202F), plus the
   * controls U+0009..U+000D and U+001C..U+001F.
   */
  predicate IsWhitespace(c: char)
  {
    || c == ' '
    || '\t' <= c <= '\r'
    || '\U{1C}' <= c <= '\U{1F}'
    || c == '\U{1680}'
    || '\U{2000}' <= c <= '\U{2006}'
    || '\U{2008}' <= c <= '\U{200A}'
    || c == '\U{2028}' || c == '\U{2029}'
    || c == '\U{205F}' || c == '\U{3000}'
  }

  /** `String.isBlank()`: empty, or white space only. */
  predicate IsBlank(s: string)
  {
    forall i :: 0 <= i < |s| ==> IsWhitespace(s[i])
  }

  /** Upper-casing changes no white space, so it keeps a string blank or not. */
  lemma ToUpperKeepsBlankness(s: string)
    ensures IsBlank(ToUpper(s)) <==> IsBlank(s)
  {
    forall i | 0 <= i < |s|
      ensures IsWhitespace(ToUpper(s)[i]) <==> IsWhitespace(s[i])
    {
      if IsLowerAscii(s[i]) {
        assert IsUpperAscii(ToUpper(s)[i]);
      }
    }
  }

  // ---------------------------------------------------------------- trim

  /** The characters `String.trim()` strips: every code point up to U+0020. */
  predicate IsTrimmable(c: char) { c <= ' ' }

  predicate AllTrimmable(s: string)
  {
    forall i :: 0 <= i < |s| ==> IsTrimmable(s[i])
  }

  /** Strips the leading run of trimmable characters. */
  function TrimStart(s: string): (r: string)
    ensures |r| <= |s| && r == s[|s| - |r|..]
    ensures forall i :: 0 <= i < |s| - |r| ==> IsTrimmable(s[i])
    ensures r == [] || !IsTrimmable(r[0])
  {
    if |s| > 0 && IsTrimmable(s[0]) then
      var r := TrimStart(s[1..]);
      assert forall i :: 1 <= i < |s| ==> s[i] == s[1..][i - 1];
      r
    else s
  }

  /** Strips the trailing run of trimmable characters. */
  function TrimEnd(s: string): (r: string)
    ensures |r| <= |s| && r == s[..|r|]
    ensures forall i :: |r| <= i < |s| ==> IsTrimmable(s[i])
    ensures r == [] || !IsTrimmable(r[|r| - 1])
  {
    if |s| > 0 && IsTrimmable(s[|s| - 1]) then
      var r := TrimEnd(s[..|s| - 1]);
      assert forall i :: 0 <= i < |s| - 1 ==> s[i] == s[..|s| - 1][i];
      r
    else s
  }

  /**
   * `String.trim()`: strips trimmable characters from both ends; nothing
   * trimmable remains at either end of the result.
   */
  function Trim(s: string): (r: string)
    ensures |r| <= |s|
    ensures r == [] || (!IsTrimmable(r[0]) && !IsTrimmable(r[|r| - 1]))
  {
    var u := TrimStart(s);
    var r := TrimEnd(u);
    assert r != [] ==> r[0] == u[0];
    r
  }

  /**
   * `trim` returns a contiguous slice of its input, and everything it cuts
   * off on either side is trimmable.
   */
  lemma TrimIsInfix(s: string)
    ensures exists i, j ::
              && 0 <= i <= j <= |s|
              && Trim(s) == s[i..j]
              && (forall k :: 0 <= k < i ==> IsTrimmable(s[k]))
              && (forall k :: j <= k < |s| ==> IsTrimmable(s[k]))
  {
    InfixOfSuffix(s, TrimStart(s), Trim(s));
  }

  /** A prefix `r` of a suffix `u` of `s` is an infix of `s`, padded by what both cuts dropped. */
  lemma InfixOfSuffix(s: string, u: string, r: string)
    requires |u| <= |s| && u == s[|s| - |u|..]
    requires |r| <= |u| && r == u[..|r|]
    requires forall k :: 0 <= k < |s| - |u| ==> IsTrimmable(s[k])
    requires forall k :: |r| <= k < |u| ==> IsTrimmable(u[k])
    ensures exists i, j ::
              && 0 <= i <= j <= |s|
              && r == s[i..j]
              && (forall k :: 0 <= k < i ==> IsTrimmable(s[k]))
              && (forall k :: j <= k < |s| ==> IsTrimmable(s[k]))
  {
    var i := |s| - |u|;
    var j := i + |r|;
    assert r == s[i..j] by {
      forall k | 0 <= k < |r|
        ensures r[k] == s[i + k]
      {
        assert r[k] == u[k] && u[k] == s[i + k];
      }
    }
    forall k | j <= k < |s|
      ensures IsTrimmable(s[k])
    {
      assert s[k] == u[k - i];
    }
  }

  /** A string with nothing trimmable at either end is its own trimmed form. */
  lemma TrimKeepsSolid(s: string)
    requires s != [] && !IsTrimmable(s[0]) && !IsTrimmable(s[|s| - 1])
    ensures Trim(s) == s
  {
    assert TrimStart(s) == s;
    assert TrimEnd(s) == s;
  }

  /** A single non-trimmable, non-lower-case character survives upper-casing and trimming. */
  lemma UpperTrimSingle(s: string)
    requires |s| == 1 && !IsLowerAscii(s[0]) && !IsTrimmable(s[0])
    ensures Trim(ToUpper(s)) == s
  {
    assert ToUpper(s) == s;
    TrimKeepsSolid(s);
  }

  /** Upper-casing leaves trimmable characters alone. */
  lemma ToUpperKeepsTrimmable(p: string)
    requires AllTrimmable(p)
    ensures ToUpper(p) == p
  {
    assert IsUpperCased(p) by {
      forall i | 0 <= i < |p| ensures !IsLowerAscii(p[i]) {
        assert IsTrimmable(p[i]);
      }
    }
    ToUpperFixesUpperCased(p);
  }

  lemma {:induction false} AllTrimmableAppend(p: string, q: string)
    requires AllTrimmable(p) && AllTrimmable(q)
    ensures AllTrimmable(p + q)
  {
    assert forall i :: 0 <= i < |p + q| ==> (p + q)[i] == if i < |p| then p[i] else q[i - |p|];
  }

  /** A prefix of trimmable characters is stripped away entirely. */
  lemma {:induction false} TrimStartSkipsPrefix(p: string, x: string)
    requires AllTrimmable(p)
    ensures TrimStart(p + x) == TrimStart(x)
    decreases |p|
  {
    if p != [] {
      var px := p + x;
      assert px[0] == p[0] && IsTrimmable(px[0]);
      assert px[1..] == p[1..] + x;
      calc {
        TrimStart(px);
        TrimStart(p[1..] + x);
        { TrimStartSkipsPrefix(p[1..], x); }
        TrimStart(x);
      }
    } else {
      assert p + x == x;
    }
  }

  /** A suffix of trimmable characters is stripped away entirely. */
  lemma {:induction false} TrimEndSkipsSuffix(x: string, q: string)
    requires AllTrimmable(q)
    ensures TrimEnd(x + q) == TrimEnd(x)
    decreases |q|
  {
    if q != [] {
      var xq := x + q;
      assert xq[|xq| - 1] == q[|q| - 1] && IsTrimmable(xq[|xq| - 1]);
      assert xq[..|xq| - 1] == x + q[..|q| - 1];
      calc {
        TrimEnd(xq);
        TrimEnd(x + q[..|q| - 1]);
        { TrimEndSkipsSuffix(x, q[..|q| - 1]); }
        TrimEnd(x);
      }
    } else {
      assert x + q == x;
    }
  }

  /** Text after the first non-trimmable character is kept by `TrimStart`. */
  lemma {:induction false} TrimStartAppend(t: string, q: string)
    requires TrimStart(t) != []
    ensures TrimStart(t + q) == TrimStart(t) + q
    decreases |t|
  {
    if IsTrimmable(t[0]) {
      assert (t + q)[1..] == t[1..] + q;
      TrimStartAppend(t[1..], q);
    }
  }

  /** A string made only of trimmable characters trims away completely. */
  lemma AllTrimmableTrimsAway(s: string)
    requires AllTrimmable(s)
    ensures TrimStart(s) == []
  {
    TrimStartSkipsPrefix(s, []);
    assert s + [] == s;
  }

  /** Leading padding does not change the trimmed string. */
  lemma TrimSkipsPrefix(p: string, x: string)
    requires AllTrimmable(p)
    ensures Trim(p + x) == Trim(x)
  {
    TrimStartSkipsPrefix(p, x);
  }

  /** Trailing padding does not change the trimmed string. */
  lemma {:induction false} TrimSkipsSuffix(x: string, q: string)
    requires AllTrimmable(q)
    ensures Trim(x + q) == Trim(x)
  {
    var u := TrimStart(x);
    if u == [] {
      assert TrimStart(x + q) == [] by {
        AllTrimmableAppend(x, q);
        AllTrimmableTrimsAway(x + q);
      }
    } else {
      assert TrimStart(x + q) == u + q by { TrimStartAppend(x, q); }
      TrimEndSkipsSuffix(u, q);
    }
  }

  /** `trim` ignores any surrounding padding of trimmable characters. */
  lemma {:induction false} TrimIgnoresPadding(p: string, t: string, q: string)
    requires AllTrimmable(p) && AllTrimmable(q)
    ensures Trim(p + t + q) == Trim(t)
  {
    calc {
      Trim(p + t + q);
      { assert p + t + q == p + (t + q); }
      Trim(p + (t + q));
      { TrimSkipsPrefix(p, t + q); }
      Trim(t + q);
      { TrimSkipsSuffix(t, q); }
      Trim(t);
    }
  }

  /** Upper-casing then trimming also ignores surrounding padding. */
  lemma {:induction false} UpperTrimIgnoresPadding(p: string, t: string, q: string)
    requires AllTrimmable(p) && AllTrimmable(q)
    ensures Trim(ToUpper(p + t + q)) == Trim(ToUpper(t))
  {
    var upper := ToUpper(t);
    assert ToUpper(p + t + q) == p + upper + q by {
      ToUpperAppend(p + t, q);
      ToUpperAppend(p, t);
      ToUpperKeepsTrimmable(p);
      ToUpperKeepsTrimmable(q);
    }
    TrimIgnoresPadding(p, upper, q);
  }

  // ---------------------------------------------------------------- suffix

  /** `String.endsWith(suffix)`. */
  predicate EndsWith(s: string, suffix: string)
  {
    |suffix| <= |s| && s[|s| - |suffix|..] == suffix
  }
}
