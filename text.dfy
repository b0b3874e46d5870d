/**
 * The few operations on Python strings that the core relies on:
 * `str.strip()`, `str.split(sep)`, `sep in s`, `s.split(sep, 1)[1]`,
 * `s.startswith(c)`, `s.rfind(c, lo, hi)` and the slice `s[:n]`,
 * over strings modelled as sequences of characters.
 */
module Text {

  function Min(a: int, b: int): (m: int)
    ensures m <= a && m <= b && (m == a || m == b)
  {
    if a <= b then a else b
  }

  function Max(a: int, b: int): (m: int)
    ensures m >= a && m >= b && (m == a || m == b)
  {
    if a >= b then a else b
  }

  /** The characters for which Python's `str.isspace()` holds. */
  predicate IsSpace(c: char) {
    || c == ' ' || c == '\t' || c == '\n' || c == '\r'
    || c == '\U{0B}' || c == '\U{0C}'
    || ('\U{1C}' <= c <= '\U{1F}')
    || c == '\U{85}' || c == '\U{A0}' || c == '\U{1680}'
    || ('\U{2000}' <= c <= '\U{200A}')
    || c == '\U{2028}' || c == '\U{2029}' || c == '\U{202F}' || c == '\U{205F}' || c == '\U{3000}'
  }

  predicate AllSpace(s: string) {
    forall k :: 0 <= k < |s| ==> IsSpace(s[k])
  }

  /** `s.lstrip()`: what is left after the leading white space. */
  function TrimStart(s: string): string
    decreases |s|
  {
    if s != [] && IsSpace(s[0]) then TrimStart(s[1..]) else s
  }

  /** `lstrip` drops a white-space prefix and leaves a suffix that does not start with white space. */
  lemma {:induction false} TrimStartFacts(s: string)
    ensures var r := TrimStart(s);
      && |r| <= |s| && r == s[|s| - |r|..]
      && (r == [] || !IsSpace(r[0]))
      && AllSpace(s[..|s| - |r|])
    decreases |s|
  {
    if s != [] && IsSpace(s[0]) {
      TrimStartFacts(s[1..]);
      var r := TrimStart(s[1..]);
      assert s[..|s| - |r|] == [s[0]] + s[1..][..|s| - 1 - |r|];
    }
  }

  /** `s.rstrip()`: what is left before the trailing white space. */
  function TrimEnd(s: string): string
    decreases |s|
  {
    if s != [] && IsSpace(s[|s| - 1]) then TrimEnd(s[..|s| - 1]) else s
  }

  /** `rstrip` drops a white-space suffix and leaves a prefix that does not end with white space. */
  lemma {:induction false} TrimEndFacts(s: string)
    ensures var r := TrimEnd(s);
      && |r| <= |s| && r == s[..|r|]
      && (r == [] || !IsSpace(r[|r| - 1]))
      && AllSpace(s[|r|..])
    decreases |s|
  {
    if s != [] && IsSpace(s[|s| - 1]) {
      TrimEndFacts(s[..|s| - 1]);
      var r := TrimEnd(s[..|s| - 1]);
      assert s[|r|..] == s[..|s| - 1][|r|..] + [s[|s| - 1]];
    }
  }

  /** Index of the first character of `s` that is not white space, or `|s|`. */
  function StripStart(s: string): nat {
    TrimStartFacts(s);
    |s| - |TrimStart(s)|
  }

  /** `s.strip()`. */
  function Strip(s: string): string {
    TrimEnd(TrimStart(s))
  }

  /**
   * `strip` drops a white-space prefix and a white-space suffix and returns
   * the slice between them, which neither starts nor ends with white space;
   * it is empty exactly when `s` is all white space.
   */
  lemma StripFacts(s: string)
    ensures var r := Strip(s);
      && StripStart(s) + |r| <= |s|
      && r == s[StripStart(s)..StripStart(s) + |r|]
      && (r == [] <==> AllSpace(s))
      && (r != [] ==> !IsSpace(r[0]) && !IsSpace(r[|r| - 1]))
      && AllSpace(s[..StripStart(s)])
      && AllSpace(s[StripStart(s) + |r|..])
  {
    var t := TrimStart(s);
    var r := TrimEnd(t);
    TrimStartFacts(s);
    TrimEndFacts(t);
    StripSlice(s, t, r);
    assert s[StripStart(s) + |r|..] == t[|r|..];
    if r == [] { StripEmptyAllSpace(s, t, r); } else { StripNonEmpty(s, t, r); }
  }

  lemma StripSlice(s: string, t: string, r: string)
    requires t == TrimStart(s) && r == TrimEnd(t)
    requires |t| <= |s| && t == s[|s| - |t|..] && |r| <= |t| && r == t[..|r|]
    ensures r == s[StripStart(s)..StripStart(s) + |r|]
  {
    PrefixOfSuffix(s, |s| - |t|, t, r);
  }

  lemma PrefixOfSuffix(s: string, i: nat, t: string, r: string)
    requires i <= |s| && t == s[i..] && |r| <= |t| && r == t[..|r|]
    ensures r == s[i..i + |r|]
  {
  }

  lemma StripEmptyAllSpace(s: string, t: string, r: string)
    requires t == TrimStart(s) && r == TrimEnd(t)
    requires |t| <= |s| && AllSpace(s[..|s| - |t|]) && (t == [] || !IsSpace(t[0]))
    requires |r| <= |t| && AllSpace(t[|r|..])
    requires r == []
    ensures AllSpace(s)
  {
    var i := |s| - |t|;
    assert t[|r|..] == t;
    assert t == [];
    assert s[..i] == s;
  }

  lemma StripNonEmpty(s: string, t: string, r: string)
    requires t == TrimStart(s) && r == TrimEnd(t)
    requires |t| <= |s| && t == s[|s| - |t|..] && |r| <= |t| && r == t[..|r|]
    requires r != [] && !IsSpace(r[|r| - 1]) && !IsSpace(t[0])
    ensures !AllSpace(s)
    ensures !IsSpace(r[0]) && !IsSpace(r[|r| - 1])
  {
    var i := |s| - |t|;
    assert t[0] == r[0] && s[i] == t[0];
  }

  /** A string that neither starts nor ends with white space is its own `strip`. */
  lemma StripId(s: string)
    requires s != [] && !IsSpace(s[0]) && !IsSpace(s[|s| - 1])
    ensures Strip(s) == s
  {
  }

  /** `s.startswith(c)` for a one-character prefix. */
  predicate StartsWith(s: string, c: char) {
    |s| > 0 && s[0] == c
  }

  /** `s.find(c)`: the first index of `c` in `s`, or -1 when there is none. */
  function Find(s: string, c: char): (i: int)
    ensures -1 <= i < |s|
    decreases |s|
  {
    if s == [] then -1
    else if s[0] == c then 0
    else
      var j := Find(s[1..], c);
      if j < 0 then -1 else j + 1
  }

  /**
   * `find` gives -1 exactly when `c` does not occur; otherwise the index it
   * gives holds `c`, and no `c` comes before it.
   */
  lemma {:induction false} FindFirst(s: string, c: char)
    ensures var i := Find(s, c);
      && (i == -1 <==> c !in s)
      && (i >= 0 ==> s[i] == c && c !in s[..i])
    decreases |s|
  {
    if s != [] && s[0] != c {
      FindFirst(s[1..], c);
      var j := Find(s[1..], c);
      assert s == [s[0]] + s[1..];
      if j >= 0 {
        assert s[..j + 1] == [s[0]] + s[1..][..j];
      }
    }
  }

  /** `s.split(c, 1)[1]`: everything after the first `c`. */
  function AfterFirst(s: string, c: char): (r: string)
    requires c in s
    ensures |r| < |s|
  {
    FindFirst(s, c);
    s[Find(s, c) + 1..]
  }

  /** What follows the first `c`: `s` is a `c`-free head, then `c`, then the result. */
  lemma AfterFirstFacts(s: string, c: char)
    requires c in s
    ensures var r := AfterFirst(s, c);
      && s == s[..|s| - |r| - 1] + [c] + r
      && c !in s[..|s| - |r| - 1]
  {
    var i := Find(s, c);
    FindFirst(s, c);
    assert s == s[..i] + [c] + s[i + 1..];
  }

  /**
   * `s.rfind(c, lo, hi)`: the last index in `[lo, hi)` that holds `c`,
   * or -1 when there is none.
   */
  function RFind(s: string, c: char, lo: nat, hi: nat): (i: int)
    requires lo <= hi <= |s|
    ensures i == -1 || (lo <= i < hi && s[i] == c)
    decreases hi - lo
  {
    if lo == hi then -1
    else if s[hi - 1] == c then hi - 1
    else RFind(s, c, lo, hi - 1)
  }

  /** `rfind` finds the last `c`: none lies after it, and -1 means there is none at all. */
  lemma {:induction false} RFindLast(s: string, c: char, lo: nat, hi: nat)
    requires lo <= hi <= |s|
    ensures var i := RFind(s, c, lo, hi);
      && (i == -1 ==> forall k :: lo <= k < hi ==> s[k] != c)
      && (i != -1 ==> forall k :: i < k < hi ==> s[k] != c)
    decreases hi - lo
  {
    if lo < hi && s[hi - 1] != c {
      RFindLast(s, c, lo, hi - 1);
    }
  }

  /** `s[:n]`: the first `n` characters, or all of `s` when it is shorter. */
  function Prefix(s: string, n: nat): string {
    if |s| <= n then s else s[..n]
  }

  /** `sep.join(parts)`. */
  function Join(parts: seq<string>, sep: char): string
    decreases |parts|
  {
    if parts == [] then []
    else if |parts| == 1 then parts[0]
    else parts[0] + [sep] + Join(parts[1..], sep)
  }

  /** `s.split(sep)`: the pieces between occurrences of `sep`. */
  function Split(s: string, sep: char): (parts: seq<string>)
    ensures |parts| >= 1
    decreases |s|
  {
    var i := Find(s, sep);
    if i < 0 then [s]
    else [s[..i]] + Split(s[i + 1..], sep)
  }

  /** The pieces of a split hold no separator, and joining them gives the string back. */
  lemma {:induction false} SplitFacts(s: string, sep: char)
    ensures var parts := Split(s, sep);
      && (forall i :: 0 <= i < |parts| ==> sep !in parts[i])
      && Join(parts, sep) == s
    decreases |s|
  {
    var i := Find(s, sep);
    FindFirst(s, sep);
    if i >= 0 {
      var rest := Split(s[i + 1..], sep);
      SplitFacts(s[i + 1..], sep);
      var parts := [s[..i]] + rest;
      assert parts[1..] == rest;
      assert s == s[..i] + [sep] + s[i + 1..];
    }
  }

  /** Splitting a join of separator-free pieces gives the pieces back. */
  lemma {:induction false} SplitJoin(parts: seq<string>, sep: char)
    requires |parts| >= 1
    requires forall i :: 0 <= i < |parts| ==> sep !in parts[i]
    ensures Split(Join(parts, sep), sep) == parts
    decreases |parts|
  {
    if |parts| == 1 {
      FindFirst(parts[0], sep);
    } else {
      var tail := Join(parts[1..], sep);
      FindAfterFree(parts[0], sep, tail);
      SplitJoin(parts[1..], sep);
    }
  }

  /** In `a + [sep] + b` with no `sep` in `a`, the first `sep` is the one after `a`. */
  lemma FindAfterFree(a: string, sep: char, b: string)
    requires sep !in a
    ensures var s := a + [sep] + b;
      Find(s, sep) == |a| && s[..|a|] == a && s[|a| + 1..] == b
  {
    var s := a + [sep] + b;
    FindFirst(s, sep);
    var i := Find(s, sep);
    assert s[|a|] == sep;
    assert s[..|a|] == a;
    assert forall k :: 0 <= k < |a| ==> s[k] == a[k];
  }
}
