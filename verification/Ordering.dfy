/**
 * `sort.Slice`: some sorted permutation, and the only one when the order tells elements apart. The sort is not stable,
 * so where two different elements are equivalent the program's result is open, and every use of this module says
 * whether that can happen: plan warnings, snapshot summaries, history records and scheduler changes are told apart.
 */
module Ordering {

  ghost predicate TotalPreorder<T(!new)>(le: (T, T) -> bool) {
    && (forall x, y :: le(x, y) || le(y, x))
    && forall x, y, z :: le(x, y) && le(y, z) ==> le(x, z)
  }

  ghost predicate SortedBy<T>(le: (T, T) -> bool, s: seq<T>) {
    forall i, j :: 0 <= i < j < |s| ==> le(s[i], s[j])
  }

  /** No two different elements of `s` are equivalent. */
  ghost predicate Separates<T>(le: (T, T) -> bool, s: seq<T>) {
    forall x, y :: x in s && y in s && le(x, y) && le(y, x) ==> x == y
  }

  ghost predicate SortOf<T>(le: (T, T) -> bool, s: seq<T>, r: seq<T>) {
    SortedBy(le, r) && multiset(r) == multiset(s)
  }

  method SortBy<T(==, !new)>(s: seq<T>, le: (T, T) -> bool) returns (r: seq<T>)
    requires TotalPreorder(le)
    ensures SortOf(le, s, r)
  {
    r := [];
    for i := 0 to |s|
      invariant SortOf(le, s[..i], r)
    {
      var k := 0;
      while k < |r| && le(r[k], s[i])
        invariant 0 <= k <= |r|
        invariant forall j :: 0 <= j < k ==> le(r[j], s[i])
      {
        k := k + 1;
      }
      assert r == r[..k] + r[k..];
      assert s[..i + 1] == s[..i] + [s[i]];
      r := r[..k] + [s[i]] + r[k..];
    }
    assert s[..|s|] == s;
  }

  lemma SameElements<T>(p: seq<T>, q: seq<T>)
    requires multiset(p) == multiset(q)
    ensures |p| == |q|
    ensures forall x :: x in p <==> x in q
  {
    forall x
      ensures x in p <==> x in q
    {
      assert x in p <==> x in multiset(p);
      assert x in q <==> x in multiset(q);
    }
    assert |multiset(p)| == |p| && |multiset(q)| == |q|;
  }

  lemma HeadLeast<T(!new)>(le: (T, T) -> bool, p: seq<T>, x: T)
    requires TotalPreorder(le) && SortedBy(le, p) && x in p
    ensures le(p[0], x)
  {
    assert le(x, x);
  }

  lemma {:induction false} SortUnique<T(!new)>(le: (T, T) -> bool, p: seq<T>, q: seq<T>)
    requires TotalPreorder(le) && SortedBy(le, p) && SortedBy(le, q)
    requires multiset(p) == multiset(q) && Separates(le, p)
    ensures p == q
  {
    SameElements(p, q);
    if p != [] {
      HeadLeast(le, p, q[0]);
      HeadLeast(le, q, p[0]);
      assert p[0] == q[0];
      assert p == [p[0]] + p[1..] && q == [q[0]] + q[1..];
      assert multiset(p[1..]) == multiset(p) - multiset{p[0]};
      assert multiset(q[1..]) == multiset(q) - multiset{q[0]};
      SortUnique(le, p[1..], q[1..]);
    }
  }

  /** Two sorts of rearrangements of the same distinguishable elements agree. */
  lemma SortsAgree<T(!new)>(le: (T, T) -> bool, s: seq<T>, s': seq<T>, r: seq<T>, r': seq<T>)
    requires TotalPreorder(le) && Separates(le, s) && multiset(s) == multiset(s')
    requires SortOf(le, s, r) && SortOf(le, s', r')
    ensures r == r'
  {
    SameElements(s, r);
    SortUnique(le, r, r');
  }
}
