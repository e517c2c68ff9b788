/**
 * Strings as the program compares them, and the finite-set facts the other modules share. Go orders strings by their
 * bytes, so a proper prefix is smaller than what extends it; `sort.Strings` is specified by its result, a sorted
 * rearrangement. Everything here is about values: no module of the program corresponds to this one.
 */
module Text {

  datatype Option<+T> = None | Some(value: T)

  /** Go's `<` on strings: lexical, a proper prefix is smaller. */
  predicate Less(a: string, b: string) {
    b != [] && (a == [] || a[0] < b[0] || (a[0] == b[0] && Less(a[1..], b[1..])))
  }

  predicate AtMost(a: string, b: string) {
    a == b || Less(a, b)
  }

  /** The first position where the two differ decides, or one is a proper prefix of the other. */
  ghost predicate DiffersAt(a: string, b: string, k: nat) {
    k < |b| && k <= |a| && a[..k] == b[..k] && (k == |a| || a[k] < b[k])
  }

  lemma {:induction false} LessByPosition(a: string, b: string)
    ensures Less(a, b) <==> exists k: nat :: DiffersAt(a, b, k)
  {
    if a == [] || b == [] || a[0] != b[0] {
      assert b != [] && (a == [] || a[0] < b[0]) ==> DiffersAt(a, b, 0);
    } else {
      LessByPosition(a[1..], b[1..]);
      if k: nat :| DiffersAt(a[1..], b[1..], k) {
        assert a[..k + 1] == [a[0]] + a[1..][..k] && b[..k + 1] == [b[0]] + b[1..][..k];
        assert DiffersAt(a, b, k + 1);
      }
      if k: nat :| DiffersAt(a, b, k) {
        assert k > 0 && a[1..][..k - 1] == a[..k][1..] && b[1..][..k - 1] == b[..k][1..];
        assert DiffersAt(a[1..], b[1..], k - 1);
      }
    }
  }

  lemma {:induction false} LessIrreflexive(a: string)
    ensures !Less(a, a)
  {
    if a != [] {
      LessIrreflexive(a[1..]);
    }
  }

  lemma {:induction false} LessTransitive(a: string, b: string, c: string)
    requires Less(a, b) && Less(b, c)
    ensures Less(a, c)
  {
    if a != [] && a[0] == b[0] && b[0] == c[0] {
      LessTransitive(a[1..], b[1..], c[1..]);
    }
  }

  lemma {:induction false} LessTotal(a: string, b: string)
    ensures Less(a, b) || a == b || Less(b, a)
  {
    if a != [] && b != [] && a[0] == b[0] {
      LessTotal(a[1..], b[1..]);
      if a[1..] == b[1..] {
        assert a == [a[0]] + a[1..] && b == [b[0]] + b[1..];
      }
    }
  }

  lemma LessAsymmetric(a: string, b: string)
    requires Less(a, b)
    ensures !Less(b, a) && a != b
  {
    LessIrreflexive(a);
    if Less(b, a) {
      LessTransitive(a, b, a);
    }
  }

  lemma AtMostTransitive(a: string, b: string, c: string)
    requires AtMost(a, b) && AtMost(b, c)
    ensures AtMost(a, c)
  {
    if a != b && b != c {
      LessTransitive(a, b, c);
    }
  }

  predicate Sorted(s: seq<string>) {
    forall i, j :: 0 <= i < j < |s| ==> AtMost(s[i], s[j])
  }

  predicate Distinct<T(==)>(s: seq<T>) {
    forall i, j :: 0 <= i < j < |s| ==> s[i] != s[j]
  }

  lemma {:induction false} OnceEach<T>(s: seq<T>, x: T)
    requires Distinct(s)
    ensures multiset(s)[x] <= 1
  {
    if s != [] {
      var last := s[|s| - 1];
      assert s == s[..|s| - 1] + [last];
      OnceEach(s[..|s| - 1], x);
      assert last !in s[..|s| - 1];
    }
  }

  lemma TakeOneMore<T>(s: seq<T>, i: nat)
    requires i < |s|
    ensures s[..i + 1] == s[..i] + [s[i]]
  {
  }

  predicate Digit(c: char) { '0' <= c <= '9' }

  /** `sort.Strings`: a sorted permutation, computed by insertion. */
  method SortStrings(s: seq<string>) returns (r: seq<string>)
    ensures Sorted(r) && multiset(r) == multiset(s)
  {
    r := [];
    for i := 0 to |s|
      invariant Sorted(r) && multiset(r) == multiset(s[..i])
    {
      var k := 0;
      while k < |r| && Less(r[k], s[i])
        invariant 0 <= k <= |r|
        invariant forall j :: 0 <= j < k ==> Less(r[j], s[i])
      {
        k := k + 1;
      }
      if k < |r| {
        LessTotal(r[k], s[i]);
      }
      InsertKeepsSorted(r, s[i], k);
      assert r == r[..k] + r[k..];
      assert s[..i + 1] == s[..i] + [s[i]];
      r := r[..k] + [s[i]] + r[k..];
    }
    assert s[..|s|] == s;
  }

  lemma InsertKeepsSorted(r: seq<string>, x: string, k: nat)
    requires Sorted(r) && k <= |r|
    requires forall j :: 0 <= j < k ==> Less(r[j], x)
    requires k < |r| ==> AtMost(x, r[k])
    ensures Sorted(r[..k] + [x] + r[k..])
  {
    forall j | k <= j < |r|
      ensures AtMost(x, r[j])
    {
      AtMostTransitive(x, r[k], r[j]);
    }
  }

  /** A sequence with no repeated value, drawn from a finite set, is no longer than the set. */
  lemma {:induction false} DistinctLength<T>(s: seq<T>, all: set<T>)
    requires Distinct(s) && forall i :: 0 <= i < |s| ==> s[i] in all
    ensures |s| <= |all|
    ensures |s| == |all| ==> forall x :: x in all ==> x in s
  {
    if s != [] {
      var last := s[|s| - 1];
      var rest := s[..|s| - 1];
      forall i | 0 <= i < |rest|
        ensures rest[i] in all - {last}
      {
        assert rest[i] == s[i];
      }
      DistinctLength(rest, all - {last});
      if |s| == |all| {
        forall x | x in all
          ensures x in s
        {
          if x != last {
            assert x in all - {last};
            assert x in rest;
          }
        }
      }
    }
  }
}
