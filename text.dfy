/**
 * The Python string operations the scraper relies on: `str.strip()`, `str.replace()`,
 * the `in` test on strings and the ordering `<=` that pandas uses to sort a column
 * of strings. Strings are sequences of code points.
 */
module Text {

  /** Python's `str.isspace()` for one code point: what `str.strip()` removes. */
  predicate IsSpace(c: char)
  {
    var n := c as int;
    (0x09 <= n <= 0x0D) || (0x1C <= n <= 0x20) || n == 0x85 || n == 0xA0 || n == 0x1680
    || (0x2000 <= n <= 0x200A) || n == 0x2028 || n == 0x2029 || n == 0x202F || n == 0x205F
    || n == 0x3000
  }

  predicate AllSpace(s: string)
  {
    forall i :: 0 <= i < |s| ==> IsSpace(s[i])
  }

  function StripLeft(s: string): (r: string)
    ensures |r| <= |s| && r == s[|s| - |r|..]
    ensures AllSpace(s[..|s| - |r|])
    ensures r != [] ==> !IsSpace(r[0])
    decreases |s|
  {
    if s != [] && IsSpace(s[0]) then StripLeft(s[1..]) else s
  }

  function StripRight(s: string): (r: string)
    ensures |r| <= |s| && r == s[..|r|]
    ensures AllSpace(s[|r|..])
    ensures r != [] ==> !IsSpace(r[|r| - 1])
    decreases |s|
  {
    if s != [] && IsSpace(s[|s| - 1]) then
      var r := StripRight(s[..|s| - 1]);
      assert s[|r|..] == s[..|s| - 1][|r|..] + [s[|s| - 1]];
      r
    else s
  }

  /** `s` is `r` with the whitespace `s[..i]` in front and `s[i + |r|..]` behind. */
  predicate PaddedAt(s: string, i: int, r: string)
  {
    0 <= i <= |s| - |r| && s[i..i + |r|] == r && AllSpace(s[..i]) && AllSpace(s[i + |r|..])
  }

  /**
   * Python's `str.strip()` without argument: `s` is `r` padded with whitespace on both
   * sides, and `r` neither starts nor ends with whitespace.
   */
  function Strip(s: string): (r: string)
    ensures exists i :: PaddedAt(s, i, r)
    ensures r != [] ==> !IsSpace(r[0]) && !IsSpace(r[|r| - 1])
  {
    var left := StripLeft(s);
    var r := StripRight(left);
    PaddedBoth(s, left, r);
    r
  }

  /** Whitespace cut from the front of `s` and then from the back of what is left. */
  lemma PaddedBoth(s: string, left: string, r: string)
    requires |left| <= |s| && left == s[|s| - |left|..] && AllSpace(s[..|s| - |left|])
    requires |r| <= |left| && r == left[..|r|] && AllSpace(left[|r|..])
    ensures PaddedAt(s, |s| - |left|, r)
  {
    var i := |s| - |left|;
    assert s[i..i + |r|] == r;
    assert s[i + |r|..] == left[|r|..];
  }

  /** `p` is a prefix of `s`. */
  predicate StartsWith(s: string, p: string)
  {
    |p| <= |s| && s[..|p|] == p
  }

  /** Python's `p in s` (also `s.__contains__(p)`). */
  predicate Contains(s: string, p: string)
    decreases |s|
  {
    StartsWith(s, p) || (s != [] && Contains(s[1..], p))
  }

  /**
   * Python's `s.replace(p, r)`: scans left to right and replaces every occurrence of
   * `p` that does not overlap an earlier replaced one; an empty `p` inserts `r`
   * around every character.
   */
  function ReplaceAll(s: string, p: string, r: string): string
    decreases |s|
  {
    if p == [] then
      (if s == [] then r else r + [s[0]] + ReplaceAll(s[1..], p, r))
    else if s == [] then []
    else if StartsWith(s, p) then r + ReplaceAll(s[|p|..], p, r)
    else [s[0]] + ReplaceAll(s[1..], p, r)
  }

  /** A string in which `p` does not occur is left as it is. */
  lemma {:induction false} ReplaceAllAbsent(s: string, p: string, r: string)
    requires p != [] && !Contains(s, p)
    ensures ReplaceAll(s, p, r) == s
    decreases |s|
  {
    if s != [] {
      ReplaceAllAbsent(s[1..], p, r);
    }
  }

  /** An occurrence at the front is replaced and the scan resumes after it. */
  lemma ReplaceAllLeading(p: string, s: string, r: string)
    requires p != []
    ensures ReplaceAll(p + s, p, r) == r + ReplaceAll(s, p, r)
  {
    assert StartsWith(p + s, p);
    assert (p + s)[|p|..] == s;
  }

  /** Deleting a leading `p` from `p + s` gives back `s` when `s` has no `p` in it. */
  lemma RemovePrefix(p: string, s: string)
    requires p != [] && !Contains(s, p)
    ensures ReplaceAll(p + s, p, "") == s
  {
    ReplaceAllLeading(p, s, "");
    ReplaceAllAbsent(s, p, "");
  }

  /** `p` occurs in any string that starts with it. */
  lemma ContainsPrefix(p: string, s: string)
    ensures Contains(p + s, p)
  {
    assert (p + s)[..|p|] == p;
  }

  /**
   * When no occurrence of `p` in `s + p` starts inside `s`, the trailing `p` is the
   * only one replaced.
   */
  lemma {:induction false} ReplaceAllTrailing(s: string, p: string, r: string)
    requires p != []
    requires forall i :: 0 <= i < |s| ==> !StartsWith((s + p)[i..], p)
    ensures ReplaceAll(s + p, p, r) == s + r
    decreases |s|
  {
    if s == [] {
      assert [] + p == p + [];
      ReplaceAllLeading(p, [], r);
    } else {
      TrailingStep(s, p);
      ReplaceAllTrailing(s[1..], p, r);
      assert s + r == [s[0]] + (s[1..] + r);
    }
  }

  /** One step of the scan in `ReplaceAllTrailing`: the first character is kept. */
  lemma TrailingStep(s: string, p: string)
    requires s != [] && p != []
    requires forall i :: 0 <= i < |s| ==> !StartsWith((s + p)[i..], p)
    ensures !StartsWith(s + p, p) && (s + p)[1..] == s[1..] + p
    ensures forall i :: 0 <= i < |s[1..]| ==> !StartsWith((s[1..] + p)[i..], p)
  {
    assert (s + p)[0..] == s + p;
    forall i | 0 <= i < |s[1..]|
      ensures !StartsWith((s[1..] + p)[i..], p)
    {
      assert (s[1..] + p)[i..] == (s + p)[i + 1..];
    }
  }

  /** Replacing a single character works piece by piece. */
  lemma {:induction false} ReplaceCharSplit(a: string, b: string, c: char, r: string)
    ensures ReplaceAll(a + b, [c], r) == ReplaceAll(a, [c], r) + ReplaceAll(b, [c], r)
    decreases |a|
  {
    if a != [] {
      assert (a + b)[1..] == a[1..] + b;
      assert (a + b)[0] == a[0];
      assert StartsWith(a + b, [c]) == StartsWith(a, [c]);
      ReplaceCharSplit(a[1..], b, c, r);
      var front := if a[0] == c then r else [a[0]];
      assert ReplaceAll(a, [c], r) == front + ReplaceAll(a[1..], [c], r);
      assert ReplaceAll(a + b, [c], r) == front + ReplaceAll(a[1..] + b, [c], r);
    } else {
      assert a + b == b;
    }
  }

  /** A single character occurs in `s` exactly when `s` has it at some position. */
  lemma {:induction false} ContainsChar(s: string, c: char)
    ensures Contains(s, [c]) <==> c in s
    decreases |s|
  {
    if s != [] {
      ContainsChar(s[1..], c);
      assert s == [s[0]] + s[1..];
    }
  }

  /** ASCII-only lower-casing (what `str.lower()` does on ASCII letters). */
  function AsciiLower(s: string): (r: string)
    ensures |r| == |s|
    ensures forall i :: 0 <= i < |s| ==> ('A' <= s[i] <= 'Z' <==> r[i] != s[i])
    ensures forall i :: 0 <= i < |s| && 'A' <= s[i] <= 'Z' ==>
              'a' <= r[i] <= 'z' && r[i] as int == s[i] as int + 32
  {
    seq(|s|, i requires 0 <= i < |s| =>
      if 'A' <= s[i] <= 'Z' then (s[i] as int + 32) as char else s[i])
  }

  /** Python's `a <= b` on strings: code-point lexicographic order, a prefix first. */
  predicate StrLe(a: string, b: string)
    decreases |a|
  {
    a == [] || (b != [] && (a[0] < b[0] || (a[0] == b[0] && StrLe(a[1..], b[1..]))))
  }

  lemma {:induction false} StrLeTotal(a: string, b: string)
    ensures StrLe(a, b) || StrLe(b, a)
    decreases |a|
  {
    if a != [] && b != [] && a[0] == b[0] {
      StrLeTotal(a[1..], b[1..]);
    }
  }

  lemma {:induction false} StrLeTransitive(a: string, b: string, c: string)
    requires StrLe(a, b) && StrLe(b, c)
    ensures StrLe(a, c)
    decreases |a|
  {
    if a != [] && a[0] == b[0] && b[0] == c[0] {
      StrLeTransitive(a[1..], b[1..], c[1..]);
    }
  }
}
