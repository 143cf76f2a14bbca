/** The two methods of JavaScript's `Array.prototype` that the core calls,
    `find` and `filter`, written as functions over sequences.  Both take a
    callback that only reads its argument, so a total function `T -> bool`
    stands for it. */
module ArrayMethods {

  /** A value, or JavaScript's `undefined` (what `find` yields on a miss). */
  datatype Option<+T> = None | Some(value: T)

  /** `i` is the index of the first element of `s` that satisfies `p`. */
  ghost predicate IsFirstMatch<T>(s: seq<T>, p: T -> bool, i: int)
  {
    0 <= i < |s| && p(s[i]) && forall j | 0 <= j < i :: !p(s[j])
  }

  /** `a` can be obtained from `b` by deleting elements: the elements of `a`
      occur in `b` in the same relative order. */
  ghost predicate Subsequence<T>(a: seq<T>, b: seq<T>)
    decreases |b|
  {
    && |a| <= |b|
    && (|a| == 0
        || (a[0] == b[0] && Subsequence(a[1..], b[1..]))
        || Subsequence(a, b[1..]))
  }

  /** `s.find(p)`: the first element satisfying `p`, or `undefined` when no
      element does. */
  function Find<T>(s: seq<T>, p: T -> bool): (r: Option<T>)
    ensures r.None? <==> forall i | 0 <= i < |s| :: !p(s[i])
    ensures r.Some? ==> exists i :: IsFirstMatch(s, p, i) && s[i] == r.value
  {
    if |s| == 0 then None
    else if p(s[0]) then
      assert IsFirstMatch(s, p, 0);
      Some(s[0])
    else
      var r := Find(s[1..], p);
      assert r.Some? ==> exists i :: IsFirstMatch(s, p, i) && s[i] == r.value by {
        if r.Some? {
          var k :| IsFirstMatch(s[1..], p, k) && s[1..][k] == r.value;
          assert IsFirstMatch(s, p, k + 1);
        }
      }
      r
  }

  /** `s.filter(p)`: the elements satisfying `p`, each as often as it occurs
      in `s`, in their original order. */
  function Filter<T(!new)>(s: seq<T>, p: T -> bool): (r: seq<T>)
    ensures forall i | 0 <= i < |r| :: p(r[i])
    ensures forall x :: multiset(r)[x] == if p(x) then multiset(s)[x] else 0
    ensures Subsequence(r, s)
  {
    if |s| == 0 then []
    else
      var rest := Filter(s[1..], p);
      assert s == [s[0]] + s[1..];
      if p(s[0]) then [s[0]] + rest else rest
  }

  /** An element of a subsequence is an element of the sequence. */
  lemma {:induction false} SubsequenceMember<T>(a: seq<T>, b: seq<T>, x: T)
    requires Subsequence(a, b)
    requires x in a
    ensures x in b
    decreases |b|
  {
    if a[0] == b[0] && Subsequence(a[1..], b[1..]) {
      if x != a[0] {
        SubsequenceMember(a[1..], b[1..], x);
      }
    } else {
      SubsequenceMember(a, b[1..], x);
    }
  }

  /** `filter` works element by element: filtering a concatenation is
      concatenating the filtered parts, which is what keeps the original
      order. */
  lemma {:induction false} FilterAppend<T(!new)>(a: seq<T>, b: seq<T>, p: T -> bool)
    ensures Filter(a + b, p) == Filter(a, p) + Filter(b, p)
  {
    if |a| == 0 {
      assert a + b == b;
    } else {
      assert (a + b)[1..] == a[1..] + b;
      FilterAppend(a[1..], b, p);
    }
  }

  /** `filter` returns an empty array, not an error, exactly when no element
      satisfies `p`. */
  lemma FilterEmpty<T(!new)>(s: seq<T>, p: T -> bool)
    ensures Filter(s, p) == [] <==> forall i | 0 <= i < |s| :: !p(s[i])
  {
  }

  /** A find and a filter with the same callback agree: `find` yields the
      first element `filter` keeps. */
  lemma {:induction false} FindIsFirstOfFilter<T(!new)>(s: seq<T>, p: T -> bool)
    ensures Find(s, p) == if Filter(s, p) == [] then None else Some(Filter(s, p)[0])
  {
    if |s| > 0 {
      FindIsFirstOfFilter(s[1..], p);
    }
  }
}
