/**
 * Lists searched by a key: the first entry with a key is the entry, as long as keys are distinct. The program keeps its
 * issues, delivery marks, jobs, deployments and resources in such lists and searches them from the front; these facts
 * say what a lookup gives after an entry was updated, appended, removed, or the list was sorted.
 */
module Keyed {
  import opened Text
  import opened Ordering

  function Find<T>(s: seq<T>, key: T -> string, k: string): Option<T> {
    if s == [] then None else if key(s[0]) == k then Some(s[0]) else Find(s[1..], key, k)
  }

  ghost predicate DistinctKeys<T>(s: seq<T>, key: T -> string) {
    forall i, j :: 0 <= i < j < |s| ==> key(s[i]) != key(s[j])
  }

  lemma {:induction false} FindWitness<T>(s: seq<T>, key: T -> string, k: string)
    ensures Find(s, key, k).None? <==> forall i :: 0 <= i < |s| ==> key(s[i]) != k
    ensures Find(s, key, k).Some? ==> Find(s, key, k).value in s && key(Find(s, key, k).value) == k
  {
    if s != [] {
      FindWitness(s[1..], key, k);
      if key(s[0]) != k {
        assert forall i :: 1 <= i < |s| ==> s[i] == s[1..][i - 1];
        assert forall i :: 0 <= i < |s[1..]| ==> s[1..][i] == s[i + 1];
      }
    }
  }

  lemma {:induction false} FindEntry<T>(s: seq<T>, key: T -> string, i: nat)
    requires DistinctKeys(s, key) && i < |s|
    ensures Find(s, key, key(s[i])) == Some(s[i])
  {
    if i > 0 {
      assert s[1..][i - 1] == s[i];
      FindEntry(s[1..], key, i - 1);
    }
  }

  /** Two lists with distinct keys and the same entries are searched alike. */
  lemma FindRearranged<T>(s: seq<T>, s': seq<T>, key: T -> string, k: string)
    requires DistinctKeys(s, key) && DistinctKeys(s', key)
    requires forall x :: x in s <==> x in s'
    ensures Find(s, key, k) == Find(s', key, k)
  {
    FindWitness(s, key, k);
    FindWitness(s', key, k);
    if Find(s, key, k).Some? {
      var x := Find(s, key, k).value;
      var i :| 0 <= i < |s'| && s'[i] == x;
      FindEntry(s', key, i);
    }
  }

  lemma DistinctKeysRearranged<T>(s: seq<T>, s': seq<T>, key: T -> string)
    requires DistinctKeys(s, key) && multiset(s) == multiset(s')
    ensures DistinctKeys(s', key)
  {
    SameElements(s, s');
    forall i, j | 0 <= i < j < |s'|
      ensures key(s'[i]) != key(s'[j])
    {
      assert s'[i] in s && s'[j] in s;
      var a :| 0 <= a < |s| && s[a] == s'[i];
      var b :| 0 <= b < |s| && s[b] == s'[j];
      if a == b {
        AppearsTwice(s', i, j);
        OnceEach(s, s[a]);
      }
    }
  }

  lemma AppearsTwice<T>(s: seq<T>, i: nat, j: nat)
    requires i < j < |s| && s[i] == s[j]
    ensures multiset(s)[s[i]] >= 2
  {
    assert s == s[..j] + [s[j]] + s[j + 1..];
    assert s[i] in s[..j];
  }

  lemma FindUpdated<T>(s: seq<T>, key: T -> string, i: nat, x: T, k: string)
    requires DistinctKeys(s, key) && i < |s| && key(x) == key(s[i])
    ensures DistinctKeys(s[i := x], key)
    ensures Find(s[i := x], key, k) == if k == key(x) then Some(x) else Find(s, key, k)
  {
    var s' := s[i := x];
    FindWitness(s', key, k);
    FindWitness(s, key, k);
    if k == key(x) {
      FindEntry(s', key, i);
    } else if Find(s, key, k).Some? {
      var j :| 0 <= j < |s| && s[j] == Find(s, key, k).value;
      assert s'[j] == s[j];
      FindEntry(s', key, j);
    } else {
      assert forall j :: 0 <= j < |s| ==> key(s'[j]) == key(s[j]);
    }
  }

  lemma {:induction false} FindAppended<T>(s: seq<T>, key: T -> string, x: T, k: string)
    requires Find(s, key, key(x)).None?
    ensures Find(s + [x], key, k) == if k == key(x) then Some(x) else Find(s, key, k)
    ensures DistinctKeys(s, key) ==> DistinctKeys(s + [x], key)
  {
    FindWitness(s, key, key(x));
    if s != [] {
      assert (s + [x])[1..] == s[1..] + [x];
      FindAppended(s[1..], key, x, k);
    }
  }

  lemma FindRemoved<T>(s: seq<T>, key: T -> string, i: nat, k: string)
    requires DistinctKeys(s, key) && i < |s|
    ensures DistinctKeys(s[..i] + s[i + 1..], key)
    ensures Find(s[..i] + s[i + 1..], key, k) == if k == key(s[i]) then None else Find(s, key, k)
  {
    var s' := s[..i] + s[i + 1..];
    assert forall j :: 0 <= j < |s'| ==> s'[j] == if j < i then s[j] else s[j + 1];
    FindWitness(s', key, k);
    FindWitness(s, key, k);
    if Find(s, key, k).Some? && k != key(s[i]) {
      var j :| 0 <= j < |s| && s[j] == Find(s, key, k).value;
      var j' := if j < i then j else j - 1;
      assert s'[j'] == s[j];
      FindEntry(s', key, j');
    }
  }
}
