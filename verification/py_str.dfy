/**
 The handful of Python `str` operations the outline scanner is built from,
 stated over `string` (= `seq<char>`).

 Modelling assumptions:
 - `IsSpace` is the exact set of code points for which Python's `str.isspace()`
   holds; `str.strip()` and `str.split()` use the same set.
 - `Lower` lower-cases ASCII letters only; Python's `str.lower()` also maps
   non-ASCII letters (and a few to two characters), which is not modelled.
 */
module PyStr {

  /** Python's `str.isspace()` on one character. */
  predicate IsSpace(c: char) {
    var n := c as int;
    || 0x09 <= n <= 0x0D
    || 0x1C <= n <= 0x20
    || n == 0x85 || n == 0xA0 || n == 0x1680
    || 0x2000 <= n <= 0x200A
    || n == 0x2028 || n == 0x2029 || n == 0x202F || n == 0x205F || n == 0x3000
  }

  predicate AllSpace(s: string) {
    forall k | 0 <= k < |s| :: IsSpace(s[k])
  }

  /** No whitespace at either end: what `strip()` leaves behind. */
  predicate IsTrimmed(s: string) {
    |s| == 0 || (!IsSpace(s[0]) && !IsSpace(s[|s| - 1]))
  }

  function LowerChar(c: char): (r: char)
    ensures 'A' <= c <= 'Z' ==> r as int == c as int + 32
    ensures !('A' <= c <= 'Z') ==> r == c
  {
    if 'A' <= c <= 'Z' then (c as int + 32) as char else c
  }

  /** `s.lower()`, ASCII letters only. */
  function Lower(s: string): (r: string)
    ensures |r| == |s|
    ensures forall k :: 0 <= k < |s| ==> r[k] == LowerChar(s[k])
  {
    seq(|s|, k requires 0 <= k < |s| => LowerChar(s[k]))
  }

  /** Lower-casing twice is lower-casing once. */
  lemma LowerIdempotent(s: string)
    ensures Lower(Lower(s)) == Lower(s)
  {
    assert forall k | 0 <= k < |s| :: Lower(Lower(s))[k] == LowerChar(LowerChar(s[k])) == LowerChar(s[k]);
  }

  /** `s.startswith(p)`. */
  predicate StartsWith(s: string, p: string) {
    |p| <= |s| && s[..|p|] == p
  }

  /** `sub` occurs in `s` starting at index `k`. */
  predicate OccursAt(s: string, sub: string, k: nat) {
    k + |sub| <= |s| && s[k..k + |sub|] == sub
  }

  /** `sub in s`: substring containment. */
  predicate Contains(s: string, sub: string) {
    exists k: nat | k <= |s| :: OccursAt(s, sub, k)
  }

  /** Every string contains the empty string, as in Python. */
  lemma ContainsEmpty(s: string)
    ensures Contains(s, "")
  {
    assert OccursAt(s, "", 0);
  }

  /** An occurrence in a suffix is an occurrence in the whole string. */
  lemma ContainsSuffix(s: string, sub: string, d: nat)
    requires d <= |s|
    requires Contains(s[d..], sub)
    ensures Contains(s, sub)
  {
    var k: nat :| k <= |s[d..]| && OccursAt(s[d..], sub, k);
    assert s[d + k..d + k + |sub|] == s[d..][k..k + |sub|];
    assert OccursAt(s, sub, d + k);
  }

  /** Number of leading whitespace characters. */
  function LeadingSpace(s: string): (n: nat)
    ensures n <= |s|
    ensures AllSpace(s[..n])
    ensures n < |s| ==> !IsSpace(s[n])
  {
    if |s| == 0 || !IsSpace(s[0]) then 0 else 1 + LeadingSpace(s[1..])
  }

  /**
   Where the trailing whitespace of `s[lo..e]` begins: scanning back from
   `e`, the index just past the last non-blank character, or `lo`.
   */
  function TrimEnd(s: string, lo: nat, e: nat): (r: nat)
    requires lo <= e <= |s|
    ensures lo <= r <= e
    ensures forall k | r <= k < e :: IsSpace(s[k])
    ensures r > lo ==> !IsSpace(s[r - 1])
    decreases e
  {
    if e == lo || !IsSpace(s[e - 1]) then e else TrimEnd(s, lo, e - 1)
  }

  /** `s.strip()`: the slice of `s` left after dropping whitespace at both ends. */
  function Strip(s: string): (r: string)
    ensures IsTrimmed(r)
    ensures forall c :: c in r ==> c in s
    ensures exists a :: 0 <= a <= a + |r| <= |s| && r == s[a..a + |r|]
                        && AllSpace(s[..a]) && AllSpace(s[a + |r|..])
  {
    var a := LeadingSpace(s);
    var e := TrimEnd(s, a, |s|);
    assert forall k | 0 <= k < |s| - e :: s[e..][k] == s[e + k];
    assert forall k | 0 <= k < e - a :: s[a..e][k] == s[a + k];
    s[a..e]
  }

  /** `s.strip()` is empty exactly when `s` is all whitespace. */
  predicate IsBlank(s: string) {
    Strip(s) == ""
  }

  lemma BlankIffAllSpace(s: string)
    ensures IsBlank(s) <==> AllSpace(s)
  {
    var a := LeadingSpace(s);
    if IsBlank(s) {
      var r := Strip(s);
      var a' :| 0 <= a' <= a' + |r| <= |s| && r == s[a'..a' + |r|]
                && AllSpace(s[..a']) && AllSpace(s[a' + |r|..]);
      assert |r| == 0;
      forall k | 0 <= k < |s| ensures IsSpace(s[k]) {
        if k < a' { assert s[..a'][k] == s[k]; } else { assert s[a'..][k - a'] == s[k]; }
      }
    }
  }

  /** `s.strip()` of an already trimmed string is the string itself. */
  lemma StripTrimmed(s: string)
    requires IsTrimmed(s)
    ensures Strip(s) == s
  {
    if |s| > 0 {
      assert LeadingSpace(s) == 0;
      assert TrimEnd(s, 0, |s|) == |s|;
    }
    assert s[0..|s|] == s;
  }

  /** Stripping leading whitespace in front of a trimmed string recovers it. */
  lemma StripPadded(pad: string, s: string)
    requires AllSpace(pad)
    requires IsTrimmed(s)
    ensures Strip(pad + s) == s
  {
    var t := pad + s;
    if |s| == 0 {
      assert AllSpace(t);
      BlankIffAllSpace(t);
    } else {
      LeadingSpacePadded(pad, s);
      assert t[|t| - 1] == s[|s| - 1];
      assert TrimEnd(t, |pad|, |t|) == |t|;
      assert t[|pad|..|t|] == s;
    }
  }

  /** The leading whitespace of `pad + s` is exactly `pad` when `s` starts with a non-blank. */
  lemma LeadingSpacePadded(pad: string, s: string)
    requires AllSpace(pad)
    requires |s| > 0 && !IsSpace(s[0])
    ensures LeadingSpace(pad + s) == |pad|
  {
    var t := pad + s;
    var n := LeadingSpace(t);
    assert t[|pad|] == s[0];
  }

  /**
   `s.replace(pat, "")`: every occurrence of `pat`, scanning left to right
   without overlaps, is deleted.
   */
  function RemoveAll(s: string, pat: string): (r: string)
    requires |pat| > 0
    ensures |r| <= |s|
    ensures forall c :: c in r ==> c in s
    ensures |pat| == 1 ==> pat[0] !in r
    decreases |s|
  {
    if |s| == 0 then []
    else if StartsWith(s, pat) then RemoveAll(s[|pat|..], pat)
    else [s[0]] + RemoveAll(s[1..], pat)
  }

  /** Removing a pattern that does not occur changes nothing. */
  lemma {:induction false} RemoveAllAbsent(s: string, pat: string)
    requires |pat| > 0
    requires !Contains(s, pat)
    ensures RemoveAll(s, pat) == s
    decreases |s|
  {
    if |s| > 0 {
      assert !StartsWith(s, pat) by {
        assert !OccursAt(s, pat, 0);
      }
      assert !Contains(s[1..], pat) by {
        if Contains(s[1..], pat) { ContainsSuffix(s, pat, 1); }
      }
      RemoveAllAbsent(s[1..], pat);
    }
  }

  /** A leading occurrence is deleted and the rest is processed on its own. */
  lemma RemoveAllLeading(pat: string, s: string)
    requires |pat| > 0
    ensures RemoveAll(pat + s, pat) == RemoveAll(s, pat)
  {
    assert (pat + s)[..|pat|] == pat;
    assert (pat + s)[|pat|..] == s;
  }

  /** A prefix in which no occurrence of the pattern starts is kept as it is. */
  lemma {:induction false} RemoveAllKeepsPrefix(a: string, b: string, pat: string)
    requires |pat| > 0
    requires forall k: nat | k < |a| :: !OccursAt(a + b, pat, k)
    ensures RemoveAll(a + b, pat) == a + RemoveAll(b, pat)
    decreases |a|
  {
    if |a| == 0 {
      assert a + b == b;
    } else {
      var s := a + b;
      assert !StartsWith(s, pat) by {
        assert !OccursAt(s, pat, 0);
      }
      assert s[1..] == a[1..] + b;
      forall k: nat | k < |a[1..]| ensures !OccursAt(a[1..] + b, pat, k) {
        assert !OccursAt(s, pat, k + 1);
        assert k + 1 + |pat| <= |s| ==> s[k + 1..k + 1 + |pat|] == (a[1..] + b)[k..k + |pat|];
      }
      RemoveAllKeepsPrefix(a[1..], b, pat);
      assert [s[0]] + (a[1..] + RemoveAll(b, pat)) == a + RemoveAll(b, pat);
    }
  }

  /** Leading whitespace is kept when the pattern does not start with whitespace. */
  lemma {:induction false} RemoveAllBlankPrefix(pad: string, s: string, pat: string)
    requires |pat| > 0 && !IsSpace(pat[0])
    requires AllSpace(pad)
    ensures RemoveAll(pad + s, pat) == pad + RemoveAll(s, pat)
    decreases |pad|
  {
    if |pad| == 0 {
      assert pad + s == s;
    } else {
      var t := pad + s;
      assert !StartsWith(t, pat) by {
        assert t[0] == pad[0];
      }
      assert t[1..] == pad[1..] + s;
      RemoveAllBlankPrefix(pad[1..], s, pat);
    }
  }

  /** `s.split(c)[0]`: the text before the first `c`, or all of `s`. */
  function Before(s: string, c: char): (r: string)
    ensures StartsWith(s, r)
    ensures c !in r
    ensures |r| == |s| <==> c !in s
    ensures |r| < |s| ==> s[|r|] == c
  {
    if |s| == 0 || s[0] == c then []
    else
      var t := Before(s[1..], c);
      assert s[1..][..|t|] == s[1..|t| + 1];
      [s[0]] + t
  }

  /** A prefix free of `c` and followed by `c` is exactly `s.split(c)[0]`. */
  lemma BeforeUnique(s: string, c: char, p: string)
    requires StartsWith(s, p) && c !in p
    requires |p| < |s| && s[|p|] == c
    ensures Before(s, c) == p
  {
  }

  /** `s.split(c)[0]` extends every prefix free of `c`. */
  lemma BeforeAtLeast(s: string, c: char, p: string)
    requires StartsWith(s, p) && c !in p
    ensures StartsWith(Before(s, c), p)
  {
    var b := Before(s, c);
    assert |b| >= |p|;
    assert b[..|p|] == s[..|p|];
  }

  /** `s.split(c, 1)[1]`: the text after the first `c`. */
  function After(s: string, c: char): (r: string)
    requires c in s
    ensures s == Before(s, c) + [c] + r
  {
    var b := Before(s, c);
    assert s == s[..|b|] + [s[|b|]] + s[|b| + 1..];
    s[|b| + 1..]
  }

  /** The maximal run of non-whitespace characters at the front of `t`. */
  function TakeWord(t: string): (r: string)
    ensures StartsWith(t, r)
    ensures forall k :: 0 <= k < |r| ==> !IsSpace(r[k])
    ensures |r| < |t| ==> IsSpace(t[|r|])
  {
    if |t| == 0 || IsSpace(t[0]) then []
    else
      var w := TakeWord(t[1..]);
      assert t[1..][..|w|] == t[1..|w| + 1];
      [t[0]] + w
  }

  /** A blank prefix followed by a non-blank (or nothing) is exactly the leading whitespace. */
  lemma {:induction false} LeadingSpaceOf(pad: string, t: string)
    requires AllSpace(pad)
    requires |t| == 0 || !IsSpace(t[0])
    ensures LeadingSpace(pad + t) == |pad|
    decreases |pad|
  {
    if |pad| > 0 {
      assert (pad + t)[1..] == pad[1..] + t;
      LeadingSpaceOf(pad[1..], t);
    } else {
      assert pad + t == t;
    }
  }

  /** A run of non-blanks ended by a blank (or by the end) is exactly the word taken. */
  lemma {:induction false} TakeWordOf(word: string, tail: string)
    requires forall k :: 0 <= k < |word| ==> !IsSpace(word[k])
    requires |tail| == 0 || IsSpace(tail[0])
    ensures TakeWord(word + tail) == word
    decreases |word|
  {
    if |word| > 0 {
      assert (word + tail)[1..] == word[1..] + tail;
      TakeWordOf(word[1..], tail);
    } else {
      assert word + tail == tail;
    }
  }

  /**
   `s.split()[0]`: the first whitespace-delimited word. Python raises
   IndexError when `s` is all whitespace; that is the precondition here.
   */
  function FirstWord(s: string): (r: string)
    requires !AllSpace(s)
    ensures |r| > 0
    ensures forall k :: 0 <= k < |r| ==> !IsSpace(r[k])
    ensures exists a :: 0 <= a <= a + |r| <= |s| && AllSpace(s[..a]) && r == s[a..a + |r|]
                        && (a + |r| == |s| || IsSpace(s[a + |r|]))
  {
    var a := LeadingSpace(s);
    var t := s[a..];
    var r := TakeWord(t);
    assert r == s[a..a + |r|];
    r
  }
}
