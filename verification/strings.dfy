/**
  The few string operations the form relies on, stated over `seq<char>`:
  `Array.prototype.join`, `String.prototype.trim`, decimal digits, and a
  splitter that reads a joined list back.
 */
module Strings {

  /** `c` is one of the ten ASCII decimal digits (what `\d` matches in a
      JavaScript regular expression without the `u` flag). */
  predicate IsDigit(c: char)
  {
    '0' <= c <= '9'
  }

  predicate AllDigits(s: string)
  {
    forall k :: 0 <= k < |s| ==> IsDigit(s[k])
  }

  /** The characters `String.prototype.trim` strips: ECMAScript WhiteSpace
      (TAB, VT, FF, ZWNBSP and the Unicode space separators) and
      LineTerminator (LF, CR, LS, PS). */
  predicate IsJsWhitespace(c: char)
  {
    || c == '\t' || c == '\U{000B}' || c == '\U{000C}' || c == ' '
    || c == '\U{00A0}' || c == '\U{FEFF}' || c == '\U{1680}'
    || ('\U{2000}' <= c <= '\U{200A}')
    || c == '\U{202F}' || c == '\U{205F}' || c == '\U{3000}'
    || c == '\n' || c == '\r' || c == '\U{2028}' || c == '\U{2029}'
  }

  predicate AllWhitespace(s: string)
  {
    forall k :: 0 <= k < |s| ==> IsJsWhitespace(s[k])
  }

  /** `s` neither starts nor ends with a character `trim` would strip. */
  predicate Trimmed(s: string)
  {
    |s| > 0 ==> !IsJsWhitespace(s[0]) && !IsJsWhitespace(s[|s| - 1])
  }

  /** Index of the first character at or after `i` that `trim` keeps, or
      `|s|` when there is none. */
  function SkipForward(s: string, i: nat): (n: nat)
    requires i <= |s|
    ensures i <= n <= |s|
    ensures forall k :: i <= k < n ==> IsJsWhitespace(s[k])
    ensures n < |s| ==> !IsJsWhitespace(s[n])
    decreases |s| - i
  {
    if i < |s| && IsJsWhitespace(s[i]) then SkipForward(s, i + 1) else i
  }

  /** Index just past the last character before `j` that `trim` keeps, or
      `0` when there is none. */
  function SkipBackward(s: string, j: nat): (n: nat)
    requires j <= |s|
    ensures n <= j
    ensures forall k :: n <= k < j ==> IsJsWhitespace(s[k])
    ensures n > 0 ==> !IsJsWhitespace(s[n - 1])
    decreases j
  {
    if j > 0 && IsJsWhitespace(s[j - 1]) then SkipBackward(s, j - 1) else j
  }

  /** Drops the leading whitespace: the result is a suffix of `s`, what was
      dropped is all whitespace, and the result does not start with any. */
  function TrimStart(s: string): (r: string)
    ensures |r| <= |s| && r == s[|s| - |r|..]
    ensures AllWhitespace(s[..|s| - |r|])
    ensures |r| > 0 ==> !IsJsWhitespace(r[0])
  {
    s[SkipForward(s, 0)..]
  }

  /** Drops the trailing whitespace: the result is a prefix of `s`, what was
      dropped is all whitespace, and the result does not end with any. */
  function TrimEnd(s: string): (r: string)
    ensures |r| <= |s| && r == s[..|r|]
    ensures AllWhitespace(s[|r|..])
    ensures |r| > 0 ==> !IsJsWhitespace(r[|r| - 1])
  {
    s[..SkipBackward(s, |s|)]
  }

  /** `String.prototype.trim`: the result is the slice of `s` that remains
      once the whitespace on both sides is cut away, and is itself trimmed. */
  function Trim(s: string): (r: string)
    ensures Trimmed(r) && |r| <= |s|
    ensures var k := |s| - |TrimStart(s)|;
      && k + |r| <= |s| && r == s[k..k + |r|]
      && AllWhitespace(s[..k]) && AllWhitespace(s[k + |r|..])
  {
    var t := TrimStart(s);
    var r := TrimEnd(t);
    SliceOfSlice(s, |s| - |t|, |r|);
    assert |r| > 0 ==> r[0] == t[0];
    r
  }

  lemma SliceOfSlice(s: string, k: nat, n: nat)
    requires k + n <= |s|
    ensures s[k..][..n] == s[k..k + n] && s[k..][n..] == s[k + n..]
  {
  }

  /** Trimming is determined: a trimmed core padded with whitespace on
      both sides trims back to exactly that core. */
  lemma {:induction false} TrimPadded(pre: string, core: string, post: string)
    requires AllWhitespace(pre) && AllWhitespace(post) && Trimmed(core)
    ensures Trim(pre + core + post) == core
  {
    if |core| == 0 {
      assert pre + core + post == pre + post;
      assert AllWhitespace(pre + post);
      TrimStartPadded(pre + post, []);
      assert pre + post + [] == pre + post;
    } else {
      assert pre + core + post == pre + (core + post);
      TrimStartPadded(pre, core + post);
      TrimEndPadded(core, post);
    }
  }

  lemma TrimStartPadded(pre: string, rest: string)
    requires AllWhitespace(pre)
    requires |rest| > 0 ==> !IsJsWhitespace(rest[0])
    ensures TrimStart(pre + rest) == rest
  {
    var s := pre + rest;
    var n := SkipForward(s, 0);
    assert forall k :: 0 <= k < |pre| ==> s[k] == pre[k];
    assert n >= |pre|;
    if |rest| > 0 {
      assert s[|pre|] == rest[0];
    }
    assert s[n..] == rest;
  }

  lemma TrimEndPadded(rest: string, post: string)
    requires AllWhitespace(post)
    requires |rest| > 0 ==> !IsJsWhitespace(rest[|rest| - 1])
    ensures TrimEnd(rest + post) == rest
  {
    var s := rest + post;
    var n := SkipBackward(s, |s|);
    assert forall k :: |rest| <= k < |s| ==> s[k] == post[k - |rest|];
    assert n <= |rest|;
    if |rest| > 0 {
      assert s[|rest| - 1] == rest[|rest| - 1];
    }
    assert s[..n] == rest;
  }

  /** Trimming twice is trimming once. */
  lemma TrimIdempotent(s: string)
    ensures Trim(Trim(s)) == Trim(s)
  {
    var t := Trim(s);
    TrimPadded([], t, []);
    assert [] + t + [] == t;
  }

  /** `xs.join(sep)`: the elements in order with `sep` between neighbours. */
  function Join(xs: seq<string>, sep: string): (r: string)
    ensures |xs| == 0 ==> r == ""
    ensures |xs| > 0 ==> |xs[0]| <= |r| && r[..|xs[0]|] == xs[0]
    ensures |xs| > 1 ==> |xs[0]| + |sep| <= |r| && r[|xs[0]|..|xs[0]| + |sep|] == sep
    decreases |xs|
  {
    if |xs| == 0 then ""
    else if |xs| == 1 then xs[0]
    else xs[0] + sep + Join(xs[1..], sep)
  }

  /** `sep` occurs in `s` starting at position `k`. */
  predicate MatchAt(s: string, sep: string, k: nat)
  {
    k + |sep| <= |s| && s[k..k + |sep|] == sep
  }

  /** Position of the first occurrence of `sep` in `s`, or `|s|` when
      there is none. */
  function FirstMatch(s: string, sep: string): (i: nat)
    requires |sep| > 0
    ensures i <= |s|
    ensures i < |s| ==> MatchAt(s, sep, i)
    ensures forall k: nat :: k < i ==> !MatchAt(s, sep, k)
    decreases |s|
  {
    if |s| < |sep| then |s|
    else if s[..|sep|] == sep then 0
    else
      var j := FirstMatch(s[1..], sep);
      forall k: nat | 1 <= k < 1 + j
        ensures !MatchAt(s, sep, k)
      {
        ShiftMatch(s, sep, k - 1);
      }
      ShiftMatch(s, sep, j);
      assert !MatchAt(s, sep, 0);
      1 + j
  }

  /** A match in the tail is a match one place further on in the whole. */
  lemma ShiftMatch(s: string, sep: string, k: nat)
    requires |s| > 0
    ensures MatchAt(s[1..], sep, k) <==> MatchAt(s, sep, k + 1)
  {
    if k + 1 + |sep| <= |s| {
      SliceShift(s, k + 1, |sep|);
    }
  }

  lemma SliceShift(s: string, k: nat, n: nat)
    requires 1 <= k && k + n <= |s|
    ensures s[1..][k - 1..k - 1 + n] == s[k..k + n]
  {
    var a, b := s[1..][k - 1..k - 1 + n], s[k..k + n];
    forall m | 0 <= m < n
      ensures a[m] == b[m]
    {
    }
    assert a == b;
  }

  /** `s.split(sep)` for a non-empty separator: cuts at every occurrence of
      `sep`, left to right, and drops the separators. */
  function SplitOn(s: string, sep: string): (r: seq<string>)
    requires |sep| > 0
    ensures |r| > 0
    decreases |s|
  {
    var i := FirstMatch(s, sep);
    if i < |s| then [s[..i]] + SplitOn(s[i + |sep|..], sep) else [s]
  }

  /** Splitting loses nothing: joining the pieces with the same separator
      gives the text back. */
  lemma {:induction false} JoinSplit(s: string, sep: string)
    requires |sep| > 0
    ensures Join(SplitOn(s, sep), sep) == s
    decreases |s|
  {
    var i := FirstMatch(s, sep);
    if i < |s| {
      var tail := s[i + |sep|..];
      JoinSplit(tail, sep);
      JoinCons(s[..i], SplitOn(tail, sep), sep);
      assert MatchAt(s, sep, i);
      CutAt(s, i, |sep|);
    }
  }

  lemma JoinCons(x: string, rest: seq<string>, sep: string)
    requires |rest| > 0
    ensures Join([x] + rest, sep) == x + sep + Join(rest, sep)
  {
    assert ([x] + rest)[1..] == rest;
  }

  lemma CutAt(s: string, i: nat, n: nat)
    requires i + n <= |s|
    ensures s == s[..i] + s[i..i + n] + s[i + n..]
  {
  }

  /** Joining a non-empty list whose elements never contain the first
      character of the separator can be undone: no information is lost. */
  lemma {:induction false} SplitJoin(xs: seq<string>, sep: string)
    requires |xs| > 0 && |sep| > 0
    requires forall k :: 0 <= k < |xs| ==> sep[0] !in xs[k]
    ensures SplitOn(Join(xs, sep), sep) == xs
    decreases |xs|
  {
    var s := Join(xs, sep);
    if |xs| == 1 {
      NoFirstMatch(xs[0], sep);
    } else {
      var rest := Join(xs[1..], sep);
      assert s == xs[0] + (sep + rest);
      PrefixFirstMatch(xs[0], sep + rest, sep);
      var i := FirstMatch(s, sep);
      assert i == |xs[0]|;
      assert s[..i] == xs[0];
      assert s[i + |sep|..] == rest;
      SplitJoin(xs[1..], sep);
    }
  }

  lemma {:induction false} NoFirstMatch(s: string, sep: string)
    requires |sep| > 0 && sep[0] !in s
    ensures FirstMatch(s, sep) == |s|
    decreases |s|
  {
    if |s| >= |sep| {
      assert s[..|sep|][0] == s[0];
      assert s[0] in s;
      NoFirstMatch(s[1..], sep);
    }
  }

  lemma {:induction false} PrefixFirstMatch(a: string, b: string, sep: string)
    requires |sep| > 0 && sep[0] !in a
    requires |sep| <= |b| && b[..|sep|] == sep
    ensures FirstMatch(a + b, sep) == |a|
    decreases |a|
  {
    if |a| == 0 {
      assert a + b == b;
    } else {
      assert (a + b)[..|sep|][0] == a[0];
      assert a[0] in a;
      assert (a + b)[1..] == a[1..] + b;
      assert forall c :: c in a[1..] ==> c in a;
      PrefixFirstMatch(a[1..], b, sep);
    }
  }

  /** Joining single-character strings with no separator lines their
      characters up: the k-th character of the result is element k. */
  lemma {:induction false} JoinSingles(xs: seq<string>)
    requires forall k :: 0 <= k < |xs| ==> |xs[k]| == 1
    ensures |Join(xs, "")| == |xs|
    ensures forall k :: 0 <= k < |xs| ==> Join(xs, "")[k] == xs[k][0]
    decreases |xs|
  {
    if |xs| > 1 {
      JoinSingles(xs[1..]);
      assert Join(xs, "") == xs[0] + Join(xs[1..], "");
    }
  }
}
