/**
 * The LINQ operators the controllers apply to claim sequences: `Select` (projection)
 * and `Where` (filter), both lazy and order-preserving in .NET, modelled on finite
 * sequences.
 */
module Sequences {

  /** `Select`: one result per element, in the same order. */
  function Select<T, U>(s: seq<T>, f: T -> U): (r: seq<U>)
    ensures |r| == |s|
    ensures forall i :: 0 <= i < |s| ==> r[i] == f(s[i])
  {
    if s == [] then [] else [f(s[0])] + Select(s[1..], f)
  }

  /** `Where`: the elements satisfying p, in their original order. */
  function Where<T(==,!new)>(s: seq<T>, p: T -> bool): (r: seq<T>)
    ensures |r| <= |s|
    ensures forall i :: 0 <= i < |r| ==> p(r[i])
    ensures forall x :: x in r <==> x in s && p(x)
    ensures forall x :: multiset(r)[x] == if p(x) then multiset(s)[x] else 0
  {
    if s == [] then []
    else
      assert s == [s[0]] + s[1..];
      if p(s[0]) then [s[0]] + Where(s[1..], p) else Where(s[1..], p)
  }

  /** Filtering a concatenation filters each part and concatenates, keeping every occurrence. */
  lemma {:induction false} WhereAppend<T(!new)>(a: seq<T>, b: seq<T>, p: T -> bool)
    ensures Where(a + b, p) == Where(a, p) + Where(b, p)
  {
    if a == [] {
      assert a + b == b;
    } else {
      assert (a + b)[0] == a[0];
      assert (a + b)[1..] == a[1..] + b;
      WhereAppend(a[1..], b, p);
    }
  }

  /** a can be obtained from b by deleting elements (greedy matching from the left). */
  predicate IsSubsequence<T(==)>(a: seq<T>, b: seq<T>)
    decreases |b|
  {
    if a == [] then true
    else if b == [] then false
    else if a[0] == b[0] then IsSubsequence(a[1..], b[1..])
    else IsSubsequence(a, b[1..])
  }

  lemma {:induction false} SubsequenceNotLonger<T>(a: seq<T>, b: seq<T>)
    requires IsSubsequence(a, b)
    ensures |a| <= |b|
    decreases |b|
  {
    if a != [] {
      if a[0] == b[0] {
        SubsequenceNotLonger(a[1..], b[1..]);
      } else {
        SubsequenceNotLonger(a, b[1..]);
      }
    }
  }

  /** Filtering keeps the survivors in their original order. */
  lemma {:induction false} WhereIsSubsequence<T(!new)>(s: seq<T>, p: T -> bool)
    ensures IsSubsequence(Where(s, p), s)
  {
    if s != [] {
      WhereIsSubsequence(s[1..], p);
      var rest := Where(s[1..], p);
      if p(s[0]) {
        assert Where(s, p)[1..] == rest;
      } else if rest != [] {
        assert p(rest[0]);
        assert rest[0] != s[0];
      }
    }
  }

  /** Filtering an already filtered sequence changes nothing. */
  lemma {:induction false} WhereIdempotent<T(!new)>(s: seq<T>, p: T -> bool)
    ensures Where(Where(s, p), p) == Where(s, p)
  {
    if s != [] {
      WhereIdempotent(s[1..], p);
      if p(s[0]) {
        assert Where(s, p)[0] == s[0];
        assert Where(s, p)[1..] == Where(s[1..], p);
      }
    }
  }

  /**
   * Filtering before projecting equals projecting before filtering, when the filter
   * on projected values agrees with the filter on the originals.
   */
  lemma {:induction false} SelectWhereCommute<T(!new), U(!new)>(s: seq<T>, p: T -> bool, f: T -> U, q: U -> bool)
    requires forall x :: q(f(x)) == p(x)
    ensures Select(Where(s, p), f) == Where(Select(s, f), q)
  {
    if s != [] {
      SelectWhereCommute(s[1..], p, f, q);
      assert Select(s, f)[1..] == Select(s[1..], f);
      assert Select(s, f)[0] == f(s[0]);
    }
  }
}
