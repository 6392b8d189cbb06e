/**
 * The string operations the product list view relies on: `String.prototype.trim`,
 * `toLowerCase`, `includes` and `localeCompare`. Case mapping covers the ASCII letters
 * only, and `localeCompare` is stood in for by the lexicographic order on character codes,
 * which is a total order as a sort comparator needs.
 */
module Text {

  /** The characters `trim` removes: ECMAScript's WhiteSpace and LineTerminator sets. */
  predicate IsSpace(c: char)
  {
    c == '\t' || c == '\n' || c == '\U{B}' || c == '\U{C}' || c == '\r' || c == ' ' ||
    c == '\U{A0}' || c == '\U{1680}' || ('\U{2000}' <= c <= '\U{200A}') ||
    c == '\U{2028}' || c == '\U{2029}' || c == '\U{202F}' || c == '\U{205F}' ||
    c == '\U{3000}' || c == '\U{FEFF}'
  }

  /** Drops the leading white space: what is left is a suffix of `s` that does not start with a space. */
  function TrimStart(s: string): (r: string)
    ensures |r| <= |s| && r == s[|s| - |r|..]
    ensures forall k :: 0 <= k < |s| - |r| ==> IsSpace(s[k])
    ensures r != [] ==> !IsSpace(r[0])
  {
    if s != [] && IsSpace(s[0]) then TrimStart(s[1..]) else s
  }

  /** Drops the trailing white space: what is left is a prefix of `s` that does not end with a space. */
  function TrimEnd(s: string): (r: string)
    ensures |r| <= |s| && r == s[..|r|]
    ensures forall k :: |r| <= k < |s| ==> IsSpace(s[k])
    ensures r != [] ==> !IsSpace(r[|r| - 1])
  {
    if s != [] && IsSpace(s[|s| - 1]) then TrimEnd(s[..|s| - 1]) else s
  }

  /**
   * `String.prototype.trim`: what is left is a contiguous slice of `s` that neither starts
   * nor ends with white space, and everything around it is white space.
   */
  function Trim(s: string): (r: string)
    ensures exists i, j ::
      && 0 <= i <= j <= |s| && r == s[i..j]
      && (forall k :: 0 <= k < i ==> IsSpace(s[k]))
      && (forall k :: j <= k < |s| ==> IsSpace(s[k]))
    ensures r != [] ==> !IsSpace(r[0]) && !IsSpace(r[|r| - 1])
  {
    var t := TrimStart(s);
    var i := |s| - |t|;
    var r := TrimEnd(t);
    assert r == s[i..i + |r|];
    r
  }

  lemma {:induction false} TrimStartBlank(s: string)
    requires forall k :: 0 <= k < |s| ==> IsSpace(s[k])
    ensures TrimStart(s) == []
  {
    if s != [] {
      TrimStartBlank(s[1..]);
    }
  }

  /** Trimming leaves nothing exactly when the text is all white space. */
  lemma TrimEmptyIffBlank(s: string)
    ensures Trim(s) == [] <==> forall k :: 0 <= k < |s| ==> IsSpace(s[k])
  {
    var t := TrimStart(s);
    if Trim(s) == [] {
      assert t == [];
    }
    if forall k :: 0 <= k < |s| ==> IsSpace(s[k]) {
      TrimStartBlank(s);
    }
  }

  /** ASCII case mapping of one character. */
  function LowerChar(c: char): char
  {
    if 'A' <= c <= 'Z' then (c as int + 32) as char else c
  }

  /** `String.prototype.toLowerCase`, restricted to ASCII letters. */
  function Lower(s: string): (r: string)
    ensures |r| == |s|
    ensures forall i :: 0 <= i < |s| ==> r[i] == LowerChar(s[i])
  {
    if s == [] then [] else [LowerChar(s[0])] + Lower(s[1..])
  }

  /** Lower-casing keeps a text free of white space at both ends. */
  lemma LowerKeepsEnds(t: string)
    requires t != [] && !IsSpace(t[0]) && !IsSpace(t[|t| - 1])
    ensures !IsSpace(Lower(t)[0]) && !IsSpace(Lower(t)[|t| - 1])
  {
    assert Lower(t)[0] == LowerChar(t[0]) && Lower(t)[|t| - 1] == LowerChar(t[|t| - 1]);
  }

  /** Lower-casing text that is already lower case changes nothing. */
  lemma LowerIdempotent(s: string)
    ensures Lower(Lower(s)) == Lower(s)
  {
    assert forall i :: 0 <= i < |s| ==> LowerChar(LowerChar(s[i])) == LowerChar(s[i]);
  }

  lemma {:induction false} TrimStartLower(s: string)
    ensures TrimStart(Lower(s)) == Lower(TrimStart(s))
  {
    if s != [] {
      assert Lower(s)[0] == LowerChar(s[0]) && Lower(s)[1..] == Lower(s[1..]);
      assert IsSpace(LowerChar(s[0])) == IsSpace(s[0]);
      if IsSpace(s[0]) {
        TrimStartLower(s[1..]);
      }
    }
  }

  lemma LowerPrefix(s: string, n: nat)
    requires n <= |s|
    ensures Lower(s[..n]) == Lower(s)[..n]
  {
    var a, b := Lower(s[..n]), Lower(s)[..n];
    assert |a| == |b| && forall j :: 0 <= j < n ==> a[j] == b[j];
  }

  lemma {:induction false} TrimEndLower(s: string)
    ensures TrimEnd(Lower(s)) == Lower(TrimEnd(s))
  {
    if s != [] {
      var n := |s| - 1;
      var ls := Lower(s);
      assert ls[n] == LowerChar(s[n]);
      assert IsSpace(LowerChar(s[n])) == IsSpace(s[n]);
      if IsSpace(s[n]) {
        LowerPrefix(s, n);
        assert TrimEnd(ls) == TrimEnd(ls[..n]);
        TrimEndLower(s[..n]);
      }
    }
  }

  /** Lower-casing never turns a space into a non-space or back, so it commutes with `trim`. */
  lemma LowerTrimCommute(s: string)
    ensures Lower(Trim(s)) == Trim(Lower(s))
  {
    TrimStartLower(s);
    TrimEndLower(TrimStart(s));
  }

  /** `n` occurs in `h` starting at index `i`. */
  predicate OccursAt(h: string, n: string, i: int)
  {
    0 <= i && i + |n| <= |h| && h[i..i + |n|] == n
  }

  /** `n` occurs somewhere in `h`. */
  predicate Occurs(h: string, n: string)
  {
    exists i | 0 <= i <= |h| - |n| :: OccursAt(h, n, i)
  }

  /**
   * `String.prototype.includes`: the empty needle is found in every string, a prefix is
   * found, and a needle longer than the haystack never is.
   */
  function Includes(h: string, n: string): (r: bool)
    ensures n == [] ==> r
    ensures |n| <= |h| && h[..|n|] == n ==> r
    ensures r ==> |n| <= |h|
  {
    if n == [] then true
    else if |h| < |n| then false
    else h[..|n|] == n || Includes(h[1..], n)
  }

  lemma SliceOfTail(h: string, i: nat, m: nat)
    requires 1 + i + m <= |h|
    ensures h[1..][i..i + m] == h[i + 1..i + 1 + m]
  {
    var a, b := h[1..][i..i + m], h[i + 1..i + 1 + m];
    assert |a| == |b| && forall j :: 0 <= j < m ==> a[j] == b[j];
  }

  /** `includes` holds exactly when the needle occurs at some index of the haystack. */
  lemma {:induction false} IncludesIffOccurs(h: string, n: string)
    ensures Includes(h, n) <==> Occurs(h, n)
  {
    if n == [] {
      assert OccursAt(h, n, 0);
    } else if |h| >= |n| {
      if h[..|n|] == n {
        assert OccursAt(h, n, 0);
      } else {
        IncludesIffOccurs(h[1..], n);
        if i :| OccursAt(h[1..], n, i) {
          SliceOfTail(h, i, |n|);
          assert OccursAt(h, n, i + 1);
        }
        if i :| OccursAt(h, n, i) {
          assert i != 0;
          SliceOfTail(h, i - 1, |n|);
          assert OccursAt(h[1..], n, i - 1);
        }
      }
    }
  }

  /**
   * Three-way comparison of two strings by character code, the stand-in for `localeCompare`:
   * negative when `a` sorts first, zero when equal, positive when `b` sorts first.
   */
  function LocaleCompare(a: string, b: string): (r: int)
    ensures -1 <= r <= 1
  {
    if a == [] && b == [] then 0
    else if a == [] then -1
    else if b == [] then 1
    else if a[0] < b[0] then -1
    else if a[0] > b[0] then 1
    else LocaleCompare(a[1..], b[1..])
  }

  /** Swapping the arguments negates the comparison. */
  lemma {:induction false} LocaleCompareAntisymmetric(a: string, b: string)
    ensures LocaleCompare(a, b) == -LocaleCompare(b, a)
  {
    if a != [] && b != [] && a[0] == b[0] {
      LocaleCompareAntisymmetric(a[1..], b[1..]);
    }
  }

  /** Only equal strings compare as equal. */
  lemma {:induction false} LocaleCompareZeroIffEqual(a: string, b: string)
    ensures LocaleCompare(a, b) == 0 <==> a == b
  {
    if a != [] && b != [] && a[0] == b[0] {
      LocaleCompareZeroIffEqual(a[1..], b[1..]);
      assert a == [a[0]] + a[1..] && b == [b[0]] + b[1..];
    }
  }

  /** "Sorts no later than" is transitive. */
  lemma {:induction false} LocaleCompareTransitive(a: string, b: string, c: string)
    requires LocaleCompare(a, b) <= 0 && LocaleCompare(b, c) <= 0
    ensures LocaleCompare(a, c) <= 0
  {
    if a != [] && b != [] && c != [] && a[0] == b[0] == c[0] {
      LocaleCompareTransitive(a[1..], b[1..], c[1..]);
    }
  }
}
