/** The string primitives the generator relies on: the whitespace classes of
    JavaScript and Python, ASCII lower-casing, stripping, and substring search. */
module Strings {
  import opened Wrappers

  /** A code point that JavaScript's `\s` matches and `String.prototype.trim`
      removes: the WhiteSpace and LineTerminator productions of ECMAScript. */
  predicate IsJsSpace(c: char)
  {
    || c == '\t' || c == '\n' || c == '\U{B}' || c == '\U{C}' || c == '\r' || c == ' '
    || c == '\U{A0}' || c == '\U{1680}' || ('\U{2000}' <= c <= '\U{200A}')
    || c == '\U{2028}' || c == '\U{2029}' || c == '\U{202F}' || c == '\U{205F}'
    || c == '\U{3000}' || c == '\U{FEFF}'
  }

  /** A code point for which Python's `str.isspace` holds, so that `str.strip()`
      without arguments removes it. Unlike JavaScript this includes the
      information separators U+001C..U+001F and U+0085, and excludes U+FEFF. */
  predicate IsPySpace(c: char)
  {
    || ('\t' <= c <= '\r') || ('\U{1C}' <= c <= ' ')
    || c == '\U{85}' || c == '\U{A0}' || c == '\U{1680}' || ('\U{2000}' <= c <= '\U{200A}')
    || c == '\U{2028}' || c == '\U{2029}' || c == '\U{202F}' || c == '\U{205F}'
    || c == '\U{3000}'
  }

  predicate IsAsciiUpper(c: char)
  {
    'A' <= c <= 'Z'
  }

  /** `toLowerCase` restricted to ASCII: only `A`..`Z` change. */
  function LowerChar(c: char): (d: char)
    ensures !IsAsciiUpper(d)
    ensures IsAsciiUpper(c) ==> d as int == c as int + 32
    ensures !IsAsciiUpper(c) ==> d == c
  {
    if IsAsciiUpper(c) then (c as int + 32) as char else c
  }

  function Lower(s: string): (r: string)
    ensures |r| == |s|
    ensures forall k :: 0 <= k < |s| ==> r[k] == LowerChar(s[k])
  {
    seq(|s|, k requires 0 <= k < |s| => LowerChar(s[k]))
  }

  /** Lower-casing changes no character that has no upper-case form. */
  lemma LowerUnchanged(s: string)
    requires forall k :: 0 <= k < |s| ==> !IsAsciiUpper(s[k])
    ensures Lower(s) == s
  {
  }

  /** The suffix left after removing the longest prefix of `ws` characters. */
  function StripStart(s: string, ws: char -> bool): (r: string)
    ensures |r| <= |s|
  {
    if s != [] && ws(s[0]) then StripStart(s[1..], ws) else s
  }

  /** What `StripStart` removes is a prefix of `ws` characters, and what it
      keeps does not start with one. */
  lemma {:induction false} StripStartSpec(s: string, ws: char -> bool)
    ensures var r := StripStart(s, ws);
      && r == s[|s| - |r|..]
      && (forall k :: 0 <= k < |s| - |r| ==> ws(s[k]))
      && (r != [] ==> !ws(r[0]))
  {
    if s != [] && ws(s[0]) {
      StripStartSpec(s[1..], ws);
      var r := StripStart(s, ws);
      assert forall k :: 1 <= k < |s| - |r| ==> s[1..][k - 1] == s[k];
    }
  }

  /** The prefix left after removing the longest suffix of `ws` characters. */
  function StripEnd(s: string, ws: char -> bool): (r: string)
    ensures |r| <= |s|
  {
    if s != [] && ws(s[|s| - 1]) then StripEnd(s[..|s| - 1], ws) else s
  }

  lemma {:induction false} StripEndSpec(s: string, ws: char -> bool)
    ensures var r := StripEnd(s, ws);
      && r == s[..|r|]
      && (forall k :: |r| <= k < |s| ==> ws(s[k]))
      && (r != [] ==> !ws(r[|r| - 1]))
  {
    if s != [] && ws(s[|s| - 1]) {
      StripEndSpec(s[..|s| - 1], ws);
      var r := StripEnd(s, ws);
      assert forall k :: |r| <= k < |s| - 1 ==> s[..|s| - 1][k] == s[k];
    }
  }

  /** Removal of `ws` characters at both ends (JavaScript `trim`, Python `strip`). */
  function Strip(s: string, ws: char -> bool): string
  {
    StripEnd(StripStart(s, ws), ws)
  }

  /** A stripped string has no `ws` character at either end and is a
      contiguous slice of the input. */
  lemma StripSlice(s: string, ws: char -> bool)
    ensures var r := Strip(s, ws); r != [] ==> !ws(r[0]) && !ws(r[|r| - 1])
    ensures var r, i := Strip(s, ws), |s| - |StripStart(s, ws)|; i + |r| <= |s| && r == s[i..i + |r|]
  {
    StripStartSpec(s, ws);
    StripEndSpec(StripStart(s, ws), ws);
  }

  /** `StripSlice`, and everything cut off on either side is a `ws` character. */
  lemma StripSpec(s: string, ws: char -> bool)
    ensures var r := Strip(s, ws); r != [] ==> !ws(r[0]) && !ws(r[|r| - 1])
    ensures var r, i := Strip(s, ws), |s| - |StripStart(s, ws)|;
      && i + |r| <= |s| && r == s[i..i + |r|]
      && (forall k :: 0 <= k < i ==> ws(s[k]))
      && (forall k :: i + |r| <= k < |s| ==> ws(s[k]))
  {
    var t := StripStart(s, ws);
    StripSlice(s, ws);
    StripStartSpec(s, ws);
    StripEndSpec(t, ws);
    var i, r := |s| - |t|, StripEnd(t, ws);
    forall k | i + |r| <= k < |s| ensures ws(s[k]) {
      assert s[k] == t[k - i];
    }
  }

  /** Stripping a string padded with `ws` characters on both sides yields the
      inner string, provided it starts and ends with something else. */
  lemma StripPadded(pre: string, x: string, post: string, ws: char -> bool)
    requires forall k :: 0 <= k < |pre| ==> ws(pre[k])
    requires forall k :: 0 <= k < |post| ==> ws(post[k])
    requires x != [] && !ws(x[0]) && !ws(x[|x| - 1])
    ensures Strip(pre + x + post, ws) == x
  {
    var s := pre + x + post;
    var t := StripStart(s, ws);
    StripStartSpec(s, ws);
    assert s[|pre|] == x[0];
    if |s| - |t| < |pre| {
      assert false;
    }
    if |s| - |t| > |pre| {
      assert false;
    }
    assert t == x + post;
    var r := StripEnd(t, ws);
    StripEndSpec(t, ws);
    assert forall k :: |x| <= k < |t| ==> t[k] == post[k - |x|];
    assert t[|x| - 1] == x[|x| - 1];
    if |r| < |x| {
      assert false;
    }
    if |r| > |x| {
      assert false;
    }
  }

  /** Stripping the start of `a + t` stops inside `a` when `a` ends in a
      character that is not `ws`. */
  lemma {:induction false} StripStartInside(a: string, t: string, ws: char -> bool)
    requires a != [] && !ws(a[|a| - 1])
    ensures StripStart(a + t, ws) == StripStart(a, ws) + t
    decreases |a|
  {
    if ws(a[0]) {
      assert (a + t)[1..] == a[1..] + t;
      StripStartInside(a[1..], t, ws);
    }
  }

  /** Stripping the start of a run of `ws` characters followed by `b` yields
      `b` when `b` does not start with one. */
  lemma {:induction false} StripStartRun(w: string, b: string, ws: char -> bool)
    requires forall k :: 0 <= k < |w| ==> ws(w[k])
    requires b != [] ==> !ws(b[0])
    ensures StripStart(w + b, ws) == b
    decreases |w|
  {
    if w == [] {
      assert w + b == b;
    } else {
      assert (w + b)[1..] == w[1..] + b;
      StripStartRun(w[1..], b, ws);
    }
  }

  /** A string with nothing to strip at either end is left as it is. */
  lemma StripUnchanged(s: string, ws: char -> bool)
    requires s != [] ==> !ws(s[0]) && !ws(s[|s| - 1])
    ensures Strip(s, ws) == s
  {
    assert StripStart(s, ws) == s;
  }

  predicate StartsWith(s: string, prefix: string)
  {
    |prefix| <= |s| && s[..|prefix|] == prefix
  }

  /** `sep` occurs in `s` starting at index `k`. */
  predicate OccursAt(s: string, sep: string, k: int)
  {
    0 <= k && k + |sep| <= |s| && s[k..k + |sep|] == sep
  }

  lemma OccursShift(s: string, sep: string, k: nat)
    requires s != []
    ensures OccursAt(s, sep, k + 1) <==> OccursAt(s[1..], sep, k)
  {
    if 0 <= k && k + 1 + |sep| <= |s| {
      assert s[k + 1..k + 1 + |sep|] == s[1..][k..k + |sep|];
    }
  }

  /** The index of the first occurrence of `sep` in `s`, as Python's `find`
      (and the split point of `split(sep, 1)`) computes it. */
  function IndexOf(s: string, sep: string): (r: Option<nat>)
    ensures r.Some? ==> OccursAt(s, sep, r.value)
    ensures r.Some? ==> forall j :: 0 <= j < r.value ==> !OccursAt(s, sep, j)
    ensures r.None? ==> forall j :: !OccursAt(s, sep, j)
    decreases |s|
  {
    if |s| < |sep| then None
    else if s[..|sep|] == sep then Some(0)
    else
      var rest := IndexOf(s[1..], sep);
      assert !OccursAt(s, sep, 0);
      forall j | 1 <= j ensures OccursAt(s, sep, j) <==> OccursAt(s[1..], sep, j - 1) {
        OccursShift(s, sep, j - 1);
      }
      match rest
      case None => None
      case Some(k) => Some(k + 1)
  }

  /** Substring test (JavaScript `includes`, Python `in`). */
  function Contains(s: string, t: string): (b: bool)
    ensures b <==> exists j :: OccursAt(s, t, j)
  {
    IndexOf(s, t).Some?
  }
}
