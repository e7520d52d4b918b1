/**
 * Character classes and string predicates that the helper's regular
 * expressions and `String.prototype` calls rely on.
 */
module Text {
  import opened Wrappers

  /** `\d` in a JavaScript regular expression: an ASCII digit. */
  predicate IsDigit(c: char) {
    '0' <= c <= '9'
  }

  function DigitValue(c: char): (d: nat)
    requires IsDigit(c)
    ensures d < 10
  {
    (c as int) - ('0' as int)
  }

  /** The value of a run of decimal digits, most significant first (`parseInt` on digits only). */
  function DigitsValue(ds: string): nat
    requires forall k :: 0 <= k < |ds| ==> IsDigit(ds[k])
  {
    if ds == [] then 0 else DigitsValue(ds[..|ds| - 1]) * 10 + DigitValue(ds[|ds| - 1])
  }

  function Pow10(n: nat): (r: nat)
    ensures r >= 1
  {
    if n == 0 then 1 else 10 * Pow10(n - 1)
  }

  /** End of the longest run of digits starting at `i` (a greedy `\d*`). */
  function DigitsEnd(s: string, i: nat): (e: nat)
    requires i <= |s|
    ensures i <= e <= |s|
    ensures forall k :: i <= k < e ==> IsDigit(s[k])
    ensures e == |s| || !IsDigit(s[e])
    decreases |s| - i
  {
    if i < |s| && IsDigit(s[i]) then DigitsEnd(s, i + 1) else i
  }

  /** The LineTerminator characters of ECMAScript (what `^` and `$` see in multiline mode). */
  predicate IsLineTerminator(c: char) {
    c == '\n' || c == '\r' || c == '\U{2028}' || c == '\U{2029}'
  }

  /** `\s` in a JavaScript regular expression, and what `trim()` removes: WhiteSpace or LineTerminator. */
  predicate IsSpace(c: char) {
    || IsLineTerminator(c)
    || c == '\t' || c == '\U{000B}' || c == '\U{000C}' || c == ' '
    || c == '\U{00A0}' || c == '\U{1680}' || ('\U{2000}' <= c <= '\U{200A}')
    || c == '\U{202F}' || c == '\U{205F}' || c == '\U{3000}' || c == '\U{FEFF}'
  }

  /** End of the longest run of white space starting at `i` (a greedy `\s*`). */
  function SpacesEnd(s: string, i: nat): (e: nat)
    requires i <= |s|
    ensures i <= e <= |s|
    ensures forall k :: i <= k < e ==> IsSpace(s[k])
    ensures e == |s| || !IsSpace(s[e])
    decreases |s| - i
  {
    if i < |s| && IsSpace(s[i]) then SpacesEnd(s, i + 1) else i
  }

  /**
   * `toLowerCase()` on one character, for the alphabets the helper's phrases
   * use: ASCII, Latin-1, Latin Extended-A (whose capitals sit at even code
   * points in U+0100–U+0137 and U+014A–U+0177, at odd ones in U+0139–U+0148
   * and U+0179–U+017E, with Ÿ at U+0178), Ơ/Ư and the precomposed Vietnamese
   * letters of Latin Extended Additional. İ (U+0130), whose lower case is two
   * characters long, is left unchanged.
   */
  function Lower(c: char): (r: char)
    ensures IsDigit(c) || IsSpace(c) || c == '.' || c == ',' ==> r == c
  {
    var n := c as int;
    if 'A' <= c <= 'Z' then (n + 32) as char
    else if 0xC0 <= n <= 0xDE && n != 0xD7 then (n + 32) as char
    else if (0x100 <= n <= 0x137 || 0x14A <= n <= 0x177) && n % 2 == 0 && n != 0x130 then (n + 1) as char
    else if (0x139 <= n <= 0x148 || 0x179 <= n <= 0x17E) && n % 2 == 1 then (n + 1) as char
    else if n == 0x178 then 0xFF as char
    else if n == 0x1A0 || n == 0x1AF then (n + 1) as char
    else if 0x1EA0 <= n <= 0x1EFF && n % 2 == 0 then (n + 1) as char
    else c
  }

  function LowerStr(s: string): (r: string)
    ensures |r| == |s|
    ensures forall i :: 0 <= i < |s| ==> r[i] == Lower(s[i])
  {
    seq(|s|, i requires 0 <= i < |s| => Lower(s[i]))
  }

  lemma LowerStrAppend(a: string, b: string)
    ensures LowerStr(a + b) == LowerStr(a) + LowerStr(b)
  {
  }

  /** `w` occurs in `s` starting at index `i`. */
  predicate HasAt(s: string, i: int, w: string) {
    0 <= i && i + |w| <= |s| && s[i..i + |w|] == w
  }

  /** `s.includes(w)`. */
  predicate Contains(s: string, w: string) {
    exists i :: 0 <= i <= |s| && HasAt(s, i, w)
  }

  /** A word with a character that does not occur in `s` does not occur in `s`. */
  lemma NotContainsByChar(s: string, w: string, j: nat)
    requires j < |w|
    requires forall k :: 0 <= k < |s| ==> s[k] != w[j]
    ensures !Contains(s, w)
  {
    forall i | 0 <= i <= |s| ensures !HasAt(s, i, w) {
      if i + |w| <= |s| {
        assert s[i..i + |w|][j] == s[i + j];
      }
    }
  }

  /** A word whose first two characters never occur side by side in `s` does not occur in `s`. */
  lemma NotContainsByPair(s: string, w: string)
    requires |w| >= 2
    requires forall k :: 0 <= k < |s| - 1 ==> !(s[k] == w[0] && s[k + 1] == w[1])
    ensures !Contains(s, w)
  {
    forall i | 0 <= i <= |s| ensures !HasAt(s, i, w) {
      if i + |w| <= |s| {
        assert s[i..i + |w|][0] == s[i] && s[i..i + |w|][1] == s[i + 1];
      }
    }
  }

  /** An occurrence of `w` in `a + b` that does not start inside `a` lies inside `b`. */
  lemma ContainsAfterPrefix(a: string, b: string, w: string)
    requires |w| > 0
    requires forall k :: 0 <= k < |a| ==> a[k] != w[0]
    ensures Contains(a + b, w) <==> Contains(b, w)
  {
    if Contains(a + b, w) {
      var i :| 0 <= i <= |a + b| && HasAt(a + b, i, w);
      assert (a + b)[i] == w[0];
      assert i >= |a|;
      assert (a + b)[i..i + |w|] == b[i - |a|..i - |a| + |w|];
      assert HasAt(b, i - |a|, w);
    }
    if Contains(b, w) {
      var i :| 0 <= i <= |b| && HasAt(b, i, w);
      assert (a + b)[|a| + i..|a| + i + |w|] == b[i..i + |w|];
      assert HasAt(a + b, |a| + i, w);
    }
  }

  /** A suffix is contained in the whole. */
  lemma ContainsSuffix(a: string, b: string)
    ensures Contains(a + b, b)
  {
    assert (a + b)[|a|..|a| + |b|] == b;
    assert HasAt(a + b, |a|, b);
  }

  /** A character that does not occur in `w` splits every occurrence of `w` to one side. */
  lemma ContainsAcross(a: string, c: char, b: string, w: string)
    requires forall k :: 0 <= k < |w| ==> w[k] != c
    ensures Contains(a + [c] + b, w) ==> Contains(a, w) || Contains(b, w)
  {
    if Contains(a + [c] + b, w) {
      var s := a + [c] + b;
      var i :| 0 <= i <= |s| && HasAt(s, i, w);
      assert s[|a|] == c;
      if i + |w| <= |a| {
        assert s[i..i + |w|] == a[i..i + |w|];
        assert HasAt(a, i, w);
      } else {
        assert i > |a|;
        assert s[i..i + |w|] == b[i - |a| - 1..i - |a| - 1 + |w|];
        assert HasAt(b, i - |a| - 1, w);
      }
    }
  }

  /** An occurrence in a substring is an occurrence in the whole string. */
  lemma ContainsSlice(s: string, lo: int, hi: int, w: string)
    requires 0 <= lo <= hi <= |s|
    ensures Contains(s[lo..hi], w) ==> Contains(s, w)
  {
    if Contains(s[lo..hi], w) {
      var i :| 0 <= i <= hi - lo && HasAt(s[lo..hi], i, w);
      assert s[lo + i..lo + i + |w|] == w by {
        forall k | 0 <= k < |w| ensures s[lo + i + k] == w[k] {
          assert s[lo..hi][i..i + |w|][k] == w[k];
        }
      }
      assert HasAt(s, lo + i, w);
    }
  }

  /** `s.indexOf(w, p)`: the leftmost occurrence of `w` at `p` or later. */
  function IndexOf(s: string, w: string, p: nat): (r: Option<nat>)
    requires p <= |s|
    ensures r.Some? ==> p <= r.value <= |s| && HasAt(s, r.value, w)
    ensures r.Some? ==> forall q :: p <= q < r.value ==> !HasAt(s, q, w)
    ensures r.None? ==> forall q :: p <= q <= |s| ==> !HasAt(s, q, w)
    decreases |s| - p
  {
    if HasAt(s, p, w) then Some(p)
    else if p == |s| then None
    else IndexOf(s, w, p + 1)
  }

  /** `s.lastIndexOf(c)` for a one-character string: the rightmost index of `c`. */
  function LastIndexOf(s: string, c: char): (r: Option<nat>)
    ensures r.Some? ==> r.value < |s| && s[r.value] == c
    ensures r.Some? ==> forall q :: r.value < q < |s| ==> s[q] != c
    ensures r.None? ==> forall q :: 0 <= q < |s| ==> s[q] != c
  {
    if s == [] then None
    else if s[|s| - 1] == c then Some(|s| - 1)
    else LastIndexOf(s[..|s| - 1], c)
  }

  /** An occurrence in a prefix is an occurrence in the whole string. */
  lemma HasAtPrefix(s: string, m: nat, q: nat, w: string)
    requires m <= |s| && HasAt(s[..m], q, w)
    ensures HasAt(s, q, w)
  {
    assert s[q..q + |w|] == s[..m][q..q + |w|];
  }

  /** Index of the first character that is not white space, or `|s|`. */
  function TrimStart(s: string): (a: nat)
    ensures a <= |s|
    ensures forall k :: 0 <= k < a ==> IsSpace(s[k])
    ensures a == |s| || !IsSpace(s[a])
  {
    SpacesEnd(s, 0)
  }

  /** One past the last character that is not white space, or 0. */
  function TrimEnd(s: string): (b: nat)
    ensures b <= |s|
    ensures forall k :: b <= k < |s| ==> IsSpace(s[k])
    ensures b == 0 || !IsSpace(s[b - 1])
  {
    if s == [] || !IsSpace(s[|s| - 1]) then |s| else TrimEnd(s[..|s| - 1])
  }

  /** `s.trim()`: leading and trailing white space and line terminators removed. */
  function Trim(s: string): (r: string)
    ensures r == [] || (!IsSpace(r[0]) && !IsSpace(r[|r| - 1]))
    ensures r == [] ==> forall k :: 0 <= k < |s| ==> IsSpace(s[k])
    ensures exists a, b :: Strips(s, a, b) && r == s[a..b]
  {
    var a := TrimStart(s);
    var b := TrimEnd(s);
    if a < b then assert Strips(s, a, b); s[a..b]
    else assert Strips(s, 0, 0) && s[0..0] == []; []
  }

  /** `s[a..b]` is `s` with only white space cut from either end. */
  predicate Strips(s: string, a: int, b: int) {
    && 0 <= a <= b <= |s|
    && (forall k :: 0 <= k < a ==> IsSpace(s[k]))
    && (forall k :: b <= k < |s| ==> IsSpace(s[k]))
  }

  /** No occurrence in the whole string means none in a substring. */
  lemma NotContainsSlice(s: string, lo: int, hi: int, w: string)
    requires 0 <= lo <= hi <= |s| && !Contains(s, w)
    ensures !Contains(s[lo..hi], w)
  {
    ContainsSlice(s, lo, hi, w);
  }

  /** No occurrence starting before `m` means none in the prefix `s[..m]`. */
  lemma NotContainsPrefix(s: string, m: nat, w: string)
    requires m <= |s| && |w| > 0
    requires forall q :: 0 <= q < m ==> !HasAt(s, q, w)
    ensures !Contains(s[..m], w)
  {
    forall q | 0 <= q <= m ensures !HasAt(s[..m], q, w) {
      if q + |w| <= m {
        assert !HasAt(s, q, w);
        assert s[..m][q..q + |w|] == s[q..q + |w|];
      }
    }
  }

  /** Trimming keeps a string free of `w`. */
  lemma NotContainsTrim(s: string, w: string)
    requires |w| > 0 && !Contains(s, w)
    ensures !Contains(Trim(s), w)
  {
    if TrimStart(s) < TrimEnd(s) {
      NotContainsSlice(s, TrimStart(s), TrimEnd(s), w);
    }
  }

  /** `IndexOf` finds the leftmost occurrence. */
  lemma {:induction false} IndexOfFinds(s: string, w: string, p: nat, i: nat)
    requires p <= i <= |s| && HasAt(s, i, w)
    requires forall q :: p <= q < i ==> !HasAt(s, q, w)
    ensures IndexOf(s, w, p) == Some(i)
    decreases i - p
  {
    if p < i {
      IndexOfFinds(s, w, p + 1, i);
    }
  }

  /** `LastIndexOf` finds the rightmost occurrence. */
  lemma {:induction false} LastIndexOfFinds(s: string, c: char, z: nat)
    requires z < |s| && s[z] == c
    requires forall q :: z < q < |s| ==> s[q] != c
    ensures LastIndexOf(s, c) == Some(z)
    decreases |s|
  {
    if z < |s| - 1 {
      LastIndexOfFinds(s[..|s| - 1], c, z);
    }
  }
}
