/** String helpers with the meaning of the JavaScript built-ins the application
    relies on: `String.prototype.startsWith`, `String.prototype.includes` and
    `String.prototype.trim`. Strings are sequences of Unicode scalar values. */
module Text {

  /** The characters `trim` removes: the ECMAScript WhiteSpace and
      LineTerminator code points (tab, vertical tab, form feed, space,
      no-break space, byte order mark, the Zs space separators, line feed,
      carriage return, line and paragraph separators). */
  predicate IsWhitespace(c: char) {
    || c == '\t' || c == '\n' || c == '\U{000B}' || c == '\U{000C}' || c == '\r'
    || c == ' ' || c == '\U{00A0}' || c == '\U{1680}'
    || ('\U{2000}' <= c <= '\U{200A}')
    || c == '\U{2028}' || c == '\U{2029}' || c == '\U{202F}' || c == '\U{205F}'
    || c == '\U{3000}' || c == '\U{FEFF}'
  }

  predicate AllWhitespace(s: string) {
    forall i :: 0 <= i < |s| ==> IsWhitespace(s[i])
  }

  /** Neither end of `s` is whitespace (the empty string qualifies). */
  predicate IsTrimmed(s: string) {
    s == [] || (!IsWhitespace(s[0]) && !IsWhitespace(s[|s| - 1]))
  }

  predicate StartsWith(s: string, prefix: string) {
    |prefix| <= |s| && s[..|prefix|] == prefix
  }

  /** `sub` occurs in `s` starting at index `i`. */
  predicate OccursAt(s: string, sub: string, i: int) {
    0 <= i <= |s| - |sub| && s[i..i + |sub|] == sub
  }

  /** `s.includes(sub)`: `sub` occurs somewhere in `s`. */
  predicate Contains(s: string, sub: string) {
    exists i | 0 <= i <= |s| - |sub| :: OccursAt(s, sub, i)
  }

  /** The index of the first non-whitespace character at or after `i`
      (`|s|` when there is none). */
  function SkipLeading(s: string, i: nat): (n: nat)
    requires i <= |s|
    ensures i <= n <= |s|
    ensures forall j :: i <= j < n ==> IsWhitespace(s[j])
    ensures n == |s| || !IsWhitespace(s[n])
    decreases |s| - i
  {
    if i < |s| && IsWhitespace(s[i]) then SkipLeading(s, i + 1) else i
  }

  /** Scanning back from `j` towards `lo`, the end of `s[lo..j]` once its
      trailing whitespace is dropped. */
  function SkipTrailing(s: string, lo: nat, j: nat): (e: nat)
    requires lo <= j <= |s|
    ensures lo <= e <= j
    ensures forall k :: e <= k < j ==> IsWhitespace(s[k])
    ensures e == lo || !IsWhitespace(s[e - 1])
    decreases j - lo
  {
    if j > lo && IsWhitespace(s[j - 1]) then SkipTrailing(s, lo, j - 1) else j
  }

  /** The number of leading whitespace characters `trim` removes. */
  function Lead(s: string): (n: nat)
    ensures n <= |s|
    ensures AllWhitespace(s[..n])
  {
    SkipLeading(s, 0)
  }

  /** `s.trim()`: the middle of `s` from its first to its last non-whitespace
      character, with only whitespace on either side of it. */
  function Trim(s: string): (r: string)
    ensures IsTrimmed(r)
    ensures Lead(s) + |r| <= |s| && r == s[Lead(s)..Lead(s) + |r|]
    ensures AllWhitespace(s[Lead(s) + |r|..])
  {
    var a := Lead(s);
    var e := SkipTrailing(s, a, |s|);
    s[a..e]
  }

  /** `SkipLeading` stops exactly at the end of a whitespace run. */
  lemma {:induction false} SkipLeadingExact(s: string, i: nat, n: nat)
    requires i <= n <= |s|
    requires forall j :: i <= j < n ==> IsWhitespace(s[j])
    requires n == |s| || !IsWhitespace(s[n])
    ensures SkipLeading(s, i) == n
    decreases n - i
  {
    if i < n {
      SkipLeadingExact(s, i + 1, n);
    }
  }

  /** `SkipTrailing` stops exactly at the start of a trailing whitespace run. */
  lemma {:induction false} SkipTrailingExact(s: string, lo: nat, j: nat, e: nat)
    requires lo <= e <= j <= |s|
    requires forall k :: e <= k < j ==> IsWhitespace(s[k])
    requires e == lo || !IsWhitespace(s[e - 1])
    ensures SkipTrailing(s, lo, j) == e
    decreases j - e
  {
    if e < j {
      SkipTrailingExact(s, lo, j - 1, e);
    }
  }

  /** Trimming is determined by the decomposition: whatever whitespace
      surrounds a core with no whitespace at its ends, `trim` returns exactly
      that core. */
  lemma TrimUnique(a: string, m: string, b: string)
    requires AllWhitespace(a) && AllWhitespace(b) && IsTrimmed(m)
    ensures Trim(a + m + b) == m
  {
    var s := a + m + b;
    var e := |a| + |m|;
    forall j | 0 <= j < |a| ensures IsWhitespace(s[j]) {
      assert s[j] == a[j];
    }
    forall k | e <= k < |s| ensures IsWhitespace(s[k]) {
      assert s[k] == b[k - e];
    }
    if m == [] {
      SkipLeadingExact(s, 0, |s|);
      SkipTrailingExact(s, |s|, |s|, |s|);
    } else {
      assert s[|a|] == m[0];
      SkipLeadingExact(s, 0, |a|);
      assert s[e - 1] == m[|m| - 1];
      SkipTrailingExact(s, |a|, |s|, e);
      assert s[|a|..e] == m;
    }
  }

  lemma AllWhitespaceConcat(x: string, y: string)
    requires AllWhitespace(x) && AllWhitespace(y)
    ensures AllWhitespace(x + y)
  {
    forall i | 0 <= i < |x + y| ensures IsWhitespace((x + y)[i]) {
      if i < |x| { assert (x + y)[i] == x[i]; } else { assert (x + y)[i] == y[i - |x|]; }
    }
  }

  /** Every string is its trimmed core between a whitespace-only prefix and
      a whitespace-only suffix. */
  lemma TrimDecomposes(s: string)
    ensures s == s[..Lead(s)] + Trim(s) + s[Lead(s) + |Trim(s)|..]
  {
    SplitThree(s, Lead(s), |Trim(s)|);
  }

  lemma SplitThree(s: string, n: nat, k: nat)
    requires n + k <= |s|
    ensures s == s[..n] + s[n..n + k] + s[n + k..]
  {
    assert s == s[..n] + s[n..];
    assert s[n..] == s[n..n + k] + s[n + k..];
  }

  lemma PaddingRegroups(a: string, a': string, m: string, b': string, b: string)
    ensures a + (a' + m + b') + b == (a + a') + m + (b' + b)
  {
  }

  /** Leading or trailing whitespace never changes the result of `trim`. */
  lemma TrimIgnoresPadding(a: string, s: string, b: string)
    requires AllWhitespace(a) && AllWhitespace(b)
    ensures Trim(a + s + b) == Trim(s)
  {
    var m, n := Trim(s), Lead(s);
    var a', b' := s[..n], s[n + |m|..];
    TrimDecomposes(s);
    AllWhitespaceConcat(a, a');
    AllWhitespaceConcat(b', b);
    PaddingRegroups(a, a', m, b', b);
    TrimUnique(a + a', m, b' + b);
  }

  /** `trim` is idempotent. */
  lemma TrimIdempotent(s: string)
    ensures Trim(Trim(s)) == Trim(s)
  {
    var m := Trim(s);
    assert [] + m + [] == m;
    TrimUnique([], m, []);
  }
}
