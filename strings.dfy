/** String helpers shared by the model: prefixes, substrings, Python's
    `str.replace`, `str.split`, `str.strip`, `str.rstrip` and `str.join`. */
module Strings {

  predicate StartsWith(s: string, p: string) {
    |p| <= |s| && s[..|p|] == p
  }

  predicate EndsWith(s: string, p: string) {
    |p| <= |s| && s[|s| - |p|..] == p
  }

  /** `p in s` for strings: p occurs somewhere in s. */
  predicate Contains(s: string, p: string)
    decreases |s|
  {
    StartsWith(s, p) || (|s| > 0 && Contains(s[1..], p))
  }

  /** A string shorter than p cannot contain it. */
  lemma {:induction false} ShortNotContains(s: string, p: string)
    requires |s| < |p|
    ensures !Contains(s, p)
    decreases |s|
  {
    if |s| > 0 {
      ShortNotContains(s[1..], p);
    }
  }

  // ---------------------------------------------------------------------------
  // s.replace(pat, "") — remove every non-overlapping occurrence, left to right

  function RemoveAll(s: string, pat: string): (r: string)
    requires pat != []
    ensures |r| <= |s|
    decreases |s|
  {
    if |s| == 0 then []
    else if StartsWith(s, pat) then RemoveAll(s[|pat|..], pat)
    else [s[0]] + RemoveAll(s[1..], pat)
  }

  lemma {:induction false} RemoveAllAbsent(s: string, pat: string)
    requires pat != [] && !Contains(s, pat)
    ensures RemoveAll(s, pat) == s
    decreases |s|
  {
    if |s| > 0 {
      RemoveAllAbsent(s[1..], pat);
      assert s == [s[0]] + s[1..];
    }
  }

  lemma {:induction false} RemoveAllShrinks(s: string, pat: string)
    requires pat != [] && Contains(s, pat)
    ensures |RemoveAll(s, pat)| < |s|
    decreases |s|
  {
    if !StartsWith(s, pat) {
      RemoveAllShrinks(s[1..], pat);
    }
  }

  /** Removing `pat` from `pat + u` gives back u exactly when u has no
      occurrence of `pat` of its own. */
  lemma RemoveAllAfterPrefix(pat: string, u: string)
    requires pat != []
    ensures RemoveAll(pat + u, pat) == u <==> !Contains(u, pat)
  {
    var s := pat + u;
    assert StartsWith(s, pat) by { assert s[..|pat|] == pat; }
    assert s[|pat|..] == u;
    assert RemoveAll(s, pat) == RemoveAll(u, pat);
    if Contains(u, pat) {
      RemoveAllShrinks(u, pat);
    } else {
      RemoveAllAbsent(u, pat);
    }
  }

  // ---------------------------------------------------------------------------
  // s.split(c)[1] — the field between the first and the second separator

  /** The part of s before the first c (all of s when there is none). */
  function TakeUntil(s: string, c: char): (r: string)
    ensures |r| <= |s| && r == s[..|r|]
    ensures c !in r
    ensures |r| < |s| ==> s[|r|] == c
  {
    if |s| == 0 || s[0] == c then [] else [s[0]] + TakeUntil(s[1..], c)
  }

  /** The part of s after the first c. */
  function DropThrough(s: string, c: char): (r: string)
    requires c in s
    ensures |r| < |s| && r == s[|s| - |r|..]
    ensures s == TakeUntil(s, c) + [c] + r
  {
    if s[0] == c then s[1..] else DropThrough(s[1..], c)
  }

  /** Python's `s.split(c)[1]`, defined when c occurs in s. */
  function SecondField(s: string, c: char): string
    requires c in s
  {
    TakeUntil(DropThrough(s, c), c)
  }

  lemma {:induction false} TakeUntilAppend(a: string, b: string, c: char)
    ensures c !in a ==> TakeUntil(a + b, c) == a + TakeUntil(b, c)
    ensures c in a ==> TakeUntil(a + b, c) == TakeUntil(a, c)
    decreases |a|
  {
    if |a| > 0 {
      assert (a + b)[1..] == a[1..] + b;
      TakeUntilAppend(a[1..], b, c);
    } else {
      assert a + b == b;
    }
  }

  // ---------------------------------------------------------------------------
  // sep.join(parts)

  function Join(parts: seq<string>, sep: string): string {
    if |parts| == 0 then ""
    else if |parts| == 1 then parts[0]
    else parts[0] + sep + Join(parts[1..], sep)
  }

  /** Appending a part adds one separator and the part at the end. */
  lemma {:induction false} JoinSnoc(parts: seq<string>, last: string, sep: string)
    requires parts != []
    ensures Join(parts + [last], sep) == Join(parts, sep) + sep + last
    decreases |parts|
  {
    var ps := parts + [last];
    if |parts| == 1 {
      assert ps[1..] == [last];
    } else {
      assert ps[1..] == parts[1..] + [last];
      JoinSnoc(parts[1..], last, sep);
    }
  }

  /** A join of non-empty parts is empty only when there are no parts. */
  lemma {:induction false} JoinEmpty(parts: seq<string>, sep: string)
    requires forall i :: 0 <= i < |parts| ==> parts[i] != ""
    ensures Join(parts, sep) == "" <==> parts == []
  {
    if |parts| >= 2 {
      assert |Join(parts, sep)| >= |parts[0]| > 0;
    }
  }

  // ---------------------------------------------------------------------------
  // str.strip() and str.rstrip(c)

  /** The characters for which Python's `str.isspace()` holds. */
  predicate IsSpace(ch: char) {
    ('\U{9}' <= ch <= '\U{D}') || ('\U{1C}' <= ch <= '\U{20}')
    || ch == '\U{85}' || ch == '\U{A0}' || ch == '\U{1680}'
    || ('\U{2000}' <= ch <= '\U{200A}') || ch == '\U{2028}' || ch == '\U{2029}'
    || ch == '\U{202F}' || ch == '\U{205F}' || ch == '\U{3000}'
  }

  /** `s.lstrip()`: the suffix of s that starts at its first non-space. */
  function StripStart(s: string): (r: string)
    ensures |r| <= |s| && r == s[|s| - |r|..]
    ensures r == [] || !IsSpace(r[0])
    ensures forall k :: 0 <= k < |s| - |r| ==> IsSpace(s[k])
  {
    if |s| > 0 && IsSpace(s[0]) then StripStart(s[1..]) else s
  }

  /** `s.rstrip()`: the prefix of s that ends at its last non-space. */
  function StripEnd(s: string): (r: string)
    ensures |r| <= |s| && r == s[..|r|]
    ensures r == [] || !IsSpace(r[|r| - 1])
    ensures forall k :: |r| <= k < |s| ==> IsSpace(s[k])
  {
    if |s| > 0 && IsSpace(s[|s| - 1]) then StripEnd(s[..|s| - 1]) else s
  }

  /** `s.strip()`: s without its leading and trailing whitespace. */
  function Strip(s: string): (r: string) {
    StripEnd(StripStart(s))
  }

  /** A stripped string neither starts nor ends with whitespace. */
  lemma StripEnds(s: string)
    ensures Strip(s) == [] || (!IsSpace(Strip(s)[0]) && !IsSpace(Strip(s)[|Strip(s)| - 1]))
  {
    var t := StripStart(s);
    var r := StripEnd(t);
    if r != [] {
      assert r[0] == t[0];
    }
  }

  /** Strip removes only whitespace and only at the two ends: s is some
      spaces, then Strip(s), then the rest. */
  lemma StripIsTrimmedSlice(s: string)
    ensures LeadingSpaces(s) + |Strip(s)| <= |s|
    ensures s[LeadingSpaces(s)..LeadingSpaces(s) + |Strip(s)|] == Strip(s)
    ensures forall k :: 0 <= k < LeadingSpaces(s) ==> IsSpace(s[k])
  {
    var t := StripStart(s);
    var r := StripEnd(t);
    PrefixOfSuffix(s, |s| - |t|, |r|);
  }

  /** ... and what follows Strip(s) in s is whitespace only. */
  lemma StripTrailing(s: string)
    ensures forall k :: LeadingSpaces(s) + |Strip(s)| <= k < |s| ==> IsSpace(s[k])
  {
    var t := StripStart(s);
    var i := |s| - |t|;
    forall k | i + |StripEnd(t)| <= k < |s| ensures IsSpace(s[k]) {
      SuffixChar(s, i, k);
    }
  }

  lemma PrefixOfSuffix(s: string, i: nat, j: nat)
    requires i + j <= |s|
    ensures s[i..][..j] == s[i..i + j]
  {
  }

  lemma SuffixChar(s: string, i: nat, k: nat)
    requires i <= k < |s|
    ensures s[i..][k - i] == s[k]
  {
  }

  /** How many whitespace characters `strip` removes from the front. */
  function LeadingSpaces(s: string): nat {
    |s| - |StripStart(s)|
  }

  /** `s.rstrip(c)`: s without every trailing c. */
  function TrimEnd(s: string, c: char): (r: string)
    ensures |r| <= |s| && r == s[..|r|]
    ensures r == [] || r[|r| - 1] != c
    ensures forall k :: |r| <= k < |s| ==> s[k] == c
  {
    if |s| > 0 && s[|s| - 1] == c then TrimEnd(s[..|s| - 1], c) else s
  }

  // ---------------------------------------------------------------------------
  // str(n) for a natural number

  function DecimalDigits(n: nat): (r: string)
    ensures r != []
    ensures forall k :: 0 <= k < |r| ==> '0' <= r[k] <= '9'
  {
    var d := [(('0' as int) + n % 10) as char];
    if n < 10 then d else DecimalDigits(n / 10) + d
  }
}
