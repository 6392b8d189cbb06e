/** Sequence helpers shared by the store (delete) and the list view (search filter). */
module Seqs {

  /** `Array.prototype.filter`: keep, in order, the elements that pass `f`. */
  function Filter<T>(s: seq<T>, f: T -> bool): (r: seq<T>)
    ensures |r| <= |s|
  {
    if s == [] then []
    else if f(s[0]) then [s[0]] + Filter(s[1..], f)
    else Filter(s[1..], f)
  }

  /** `a` is obtained from `b` by deleting elements, without reordering the rest. */
  predicate IsSubsequence<T(==)>(a: seq<T>, b: seq<T>)
  {
    a == [] ||
    (b != [] && ((a[0] == b[0] && IsSubsequence(a[1..], b[1..])) || IsSubsequence(a, b[1..])))
  }

  /** A filtered sequence keeps the survivors in their original relative order. */
  lemma {:induction false} FilterIsSubsequence<T>(s: seq<T>, f: T -> bool)
    ensures IsSubsequence(Filter(s, f), s)
  {
    if s != [] {
      FilterIsSubsequence(s[1..], f);
      if f(s[0]) {
        assert Filter(s, f)[0] == s[0] && Filter(s, f)[1..] == Filter(s[1..], f);
      }
    }
  }

  /** An element survives the filter exactly when it occurs in the input and passes `f`. */
  lemma {:induction false} FilterMembership<T>(s: seq<T>, f: T -> bool, x: T)
    ensures x in Filter(s, f) <==> x in s && f(x)
  {
    if s != [] {
      FilterMembership(s[1..], f, x);
      assert s == [s[0]] + s[1..];
    }
  }

  /** Each value survives as often as it occurs in the input when it passes `f`, and never otherwise. */
  lemma {:induction false} FilterMultiplicity<T>(s: seq<T>, f: T -> bool, x: T)
    ensures multiset(Filter(s, f))[x] == if f(x) then multiset(s)[x] else 0
  {
    if s != [] {
      FilterMultiplicity(s[1..], f, x);
      assert s == [s[0]] + s[1..];
    }
  }

  /** Every survivor passes the test. */
  lemma {:induction false} FilterAllPass<T>(s: seq<T>, f: T -> bool)
    ensures forall i :: 0 <= i < |Filter(s, f)| ==> f(Filter(s, f)[i])
  {
    forall i | 0 <= i < |Filter(s, f)| ensures f(Filter(s, f)[i]) {
      FilterMembership(s, f, Filter(s, f)[i]);
    }
  }

  /** When every element passes, the filter is the identity. */
  lemma {:induction false} FilterKeepsAll<T>(s: seq<T>, f: T -> bool)
    requires forall i :: 0 <= i < |s| ==> f(s[i])
    ensures Filter(s, f) == s
  {
    if s != [] {
      FilterKeepsAll(s[1..], f);
    }
  }

  /** Filtering a sequence with a given first element. */
  lemma FilterCons<T>(a: T, s: seq<T>, f: T -> bool)
    ensures Filter([a] + s, f) == (if f(a) then [a] else []) + Filter(s, f)
  {
    assert ([a] + s)[0] == a && ([a] + s)[1..] == s;
  }

  /**
   * Moving `y` in front of `x` does not change the filter when at most one of them passes:
   * if `rest` filters like `[x] + tail`, then `[y] + rest` filters like `[x, y] + tail`.
   */
  lemma FilterSwapFront<T>(x: T, y: T, tail: seq<T>, rest: seq<T>, f: T -> bool)
    requires !(f(x) && f(y))
    requires Filter(rest, f) == Filter([x] + tail, f)
    ensures Filter([y] + rest, f) == Filter([x] + ([y] + tail), f)
  {
    FilterCons(y, rest, f);
    FilterCons(x, tail, f);
    FilterCons(x, [y] + tail, f);
    FilterCons(y, tail, f);
  }

  /** Filtering distributes over concatenation. */
  lemma {:induction false} FilterAppend<T>(a: seq<T>, b: seq<T>, f: T -> bool)
    ensures Filter(a + b, f) == Filter(a, f) + Filter(b, f)
  {
    if a == [] {
      assert a + b == b;
    } else {
      assert (a + b)[1..] == a[1..] + b;
      FilterAppend(a[1..], b, f);
    }
  }

  /** Filtering twice by the same test is filtering once. */
  lemma {:induction false} FilterIdempotent<T>(s: seq<T>, f: T -> bool)
    ensures Filter(Filter(s, f), f) == Filter(s, f)
  {
    FilterAllPass(s, f);
    FilterKeepsAll(Filter(s, f), f);
  }
}
