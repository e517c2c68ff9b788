/** Changes, their dependency graph, and the order a finalized plan must have. */
module PlanGraph {
  import opened Text

  /** A planned change. `action` stands for every field that ordering and execution only pass along. */
  datatype Change = Change(id: string, owner: string, dependencies: seq<string>, action: string, blocked: string)

  ghost predicate DistinctIds(cs: seq<Change>) {
    forall i, j :: 0 <= i < j < |cs| ==> cs[i].id != cs[j].id
  }

  ghost function Ids(cs: seq<Change>): set<string> {
    set c | c in cs :: c.id
  }

  /** Every named dependency is the ID of some change. */
  ghost predicate Closed(cs: seq<Change>) {
    forall c, d :: c in cs && d in c.dependencies ==> d in Ids(cs)
  }

  ghost predicate WellFormed(cs: seq<Change>) {
    DistinctIds(cs) && Closed(cs) && forall c :: c in cs ==> c.id != ""
  }

  /** The change named `x` names `y` among its dependencies. */
  ghost predicate DependsOn(cs: seq<Change>, x: string, y: string) {
    exists c :: c in cs && c.id == x && y in c.dependencies
  }

  ghost function Next(walk: seq<string>, i: nat): string
    requires i < |walk|
  {
    if i + 1 < |walk| then walk[i + 1] else walk[0]
  }

  /** Each name in the walk depends on the one after it, the last on the first; a self-loop is a walk of one. */
  ghost predicate IsCycle(cs: seq<Change>, walk: seq<string>) {
    walk != [] && forall i {:trigger Next(walk, i)} :: 0 <= i < |walk| ==> DependsOn(cs, walk[i], Next(walk, i))
  }

  ghost predicate HasCycle(cs: seq<Change>) {
    exists walk :: IsCycle(cs, walk)
  }

  /** All of `c`'s dependencies are among the changes of `done`. */
  ghost predicate Enabled(c: Change, done: seq<Change>) {
    forall d :: d in c.dependencies ==> d in Ids(done)
  }

  /** Every change comes after all its dependencies. */
  ghost predicate Topological(out: seq<Change>) {
    forall k :: 0 <= k < |out| ==> Enabled(out[k], out[..k])
  }

  /** `p`'s ID sequence is at most `q`'s in lexical order. */
  ghost predicate LexAtMost(p: seq<Change>, q: seq<Change>) {
    || p == q
    || exists k :: 0 <= k < |p| && k < |q| && p[..k] == q[..k] && Less(p[k].id, q[k].id)
  }

  ghost predicate IsOrder(cs: seq<Change>, out: seq<Change>) {
    multiset(out) == multiset(cs) && Topological(out)
  }

  /** The specification of a plan's order: the least topological rearrangement. */
  ghost predicate CanonicalOrder(cs: seq<Change>, out: seq<Change>) {
    IsOrder(cs, out) && forall p :: IsOrder(cs, p) ==> LexAtMost(out, p)
  }

  /** What Kahn's loop keeps: each emitted change was the least of those that could come next. */
  ghost predicate Greedy(cs: seq<Change>, out: seq<Change>) {
    forall k :: 0 <= k < |out| ==> GreedyAt(cs, out[..k], out[k])
  }

  ghost predicate GreedyAt(cs: seq<Change>, done: seq<Change>, c: Change) {
    && c in cs && c.id !in Ids(done) && Enabled(c, done)
    && forall other :: other in cs && other.id !in Ids(done) && Enabled(other, done) ==> AtMost(c.id, other.id)
  }

  lemma SameChange(cs: seq<Change>, a: Change, b: Change)
    requires DistinctIds(cs) && a in cs && b in cs && a.id == b.id
    ensures a == b
  {
    var i :| 0 <= i < |cs| && cs[i] == a;
    var j :| 0 <= j < |cs| && cs[j] == b;
    assert i == j;
  }

  lemma SameIds(p: seq<Change>, q: seq<Change>)
    requires multiset(p) == multiset(q)
    ensures Ids(p) == Ids(q) && |p| == |q|
    ensures forall c :: c in p <==> c in q
  {
    forall c
      ensures c in p <==> c in q
    {
      assert c in p <==> c in multiset(p);
      assert c in q <==> c in multiset(q);
    }
    assert |multiset(p)| == |p| && |multiset(q)| == |q|;
  }

  lemma DistinctRearranged(p: seq<Change>, q: seq<Change>)
    requires multiset(p) == multiset(q) && DistinctIds(p)
    ensures DistinctIds(q)
  {
    SameIds(p, q);
    forall i, j | 0 <= i < j < |q|
      ensures q[i].id != q[j].id
    {
      if q[i].id == q[j].id {
        assert q[i] in p && q[j] in p;
        SameChange(p, q[i], q[j]);
        CountedTwice(q, i, j);
        OnceEach(p, q[i]);
      }
    }
  }

  lemma CountedTwice(q: seq<Change>, i: nat, j: nat)
    requires i < j < |q| && q[i] == q[j]
    ensures multiset(q)[q[i]] >= 2
  {
    assert q == q[..j] + [q[j]] + q[j + 1..];
    assert q[i] in q[..j];
  }

  /** A greedy order of everything is the least of all topological orders. */
  lemma GreedyIsLeast(cs: seq<Change>, out: seq<Change>, p: seq<Change>)
    requires DistinctIds(cs) && Greedy(cs, out) && multiset(out) == multiset(cs)
    requires IsOrder(cs, p)
    ensures LexAtMost(out, p)
  {
    SameIds(out, cs);
    SameIds(p, cs);
    DistinctRearranged(cs, p);
    if out != p {
      var k := FirstDifference(out, p);
      assert GreedyAt(cs, out[..k], out[k]);
      assert p[k].id !in Ids(p[..k]);
      assert Enabled(p[k], p[..k]);
      assert AtMost(out[k].id, p[k].id);
      if out[k].id == p[k].id {
        SameChange(cs, out[k], p[k]);
      }
    }
  }

  lemma FirstDifference(p: seq<Change>, q: seq<Change>) returns (k: nat)
    requires |p| == |q| && p != q
    ensures k < |p| && p[..k] == q[..k] && p[k] != q[k]
  {
    k := 0;
    while k < |p| && p[k] == q[k]
      invariant k <= |p| && p[..k] == q[..k]
    {
      k := k + 1;
    }
    assert p[..|p|] == p && q[..|q|] == q;
  }

  lemma LexAntisymmetric(p: seq<Change>, q: seq<Change>)
    requires LexAtMost(p, q) && LexAtMost(q, p)
    ensures p == q
  {
    if p != q {
      var k :| 0 <= k < |p| && k < |q| && p[..k] == q[..k] && Less(p[k].id, q[k].id);
      var j :| 0 <= j < |q| && j < |p| && q[..j] == p[..j] && Less(q[j].id, p[j].id);
      assert forall m :: 0 <= m < k ==> p[..k][m] == q[..k][m] && p[m] == q[m];
      assert forall m :: 0 <= m < j ==> p[..j][m] == q[..j][m] && p[m] == q[m];
      LessAsymmetric(p[k].id, q[k].id);
      LessAsymmetric(q[j].id, p[j].id);
    }
  }

  /** The order depends only on which changes there are, not on the order they were collected in. */
  lemma CanonicalUnique(cs: seq<Change>, cs': seq<Change>, out: seq<Change>, out': seq<Change>)
    requires multiset(cs) == multiset(cs')
    requires CanonicalOrder(cs, out) && CanonicalOrder(cs', out')
    ensures out == out'
  {
    assert LexAtMost(out, out') && LexAtMost(out', out);
    LexAntisymmetric(out, out');
  }

  /** A path inside `stuck`: no name twice, each depending on the one after it. */
  ghost predicate IsPath(cs: seq<Change>, stuck: set<string>, path: seq<string>) {
    && path != [] && Distinct(path) && (forall i :: 0 <= i < |path| ==> path[i] in stuck)
    && forall i {:trigger Next(path, i)} :: 0 <= i < |path| - 1 ==> DependsOn(cs, path[i], Next(path, i))
  }

  lemma PathClosesCycle(cs: seq<Change>, stuck: set<string>, path: seq<string>, i: nat)
    requires IsPath(cs, stuck, path) && i < |path| && DependsOn(cs, path[|path| - 1], path[i])
    ensures HasCycle(cs)
  {
    var walk := path[i..];
    forall j {:trigger Next(walk, j)} | 0 <= j < |walk|
      ensures DependsOn(cs, walk[j], Next(walk, j))
    {
      assert j + 1 < |walk| ==> Next(walk, j) == Next(path, i + j);
    }
    assert IsCycle(cs, walk);
  }

  lemma PathGrows(cs: seq<Change>, stuck: set<string>, path: seq<string>, y: string)
    requires IsPath(cs, stuck, path) && y in stuck && y !in path && DependsOn(cs, path[|path| - 1], y)
    ensures IsPath(cs, stuck, path + [y])
  {
    var longer := path + [y];
    forall i {:trigger Next(longer, i)} | 0 <= i < |longer| - 1
      ensures DependsOn(cs, longer[i], Next(longer, i))
    {
      assert i + 1 < |path| ==> Next(longer, i) == Next(path, i);
    }
  }

  lemma PathFits(cs: seq<Change>, stuck: set<string>, path: seq<string>)
    requires IsPath(cs, stuck, path)
    ensures |path| <= |stuck|
  {
    DistinctLength(path, stuck);
  }

  /** `step` leads from each name of its domain to one of its dependencies in the domain. */
  ghost predicate Steps(cs: seq<Change>, step: map<string, string>) {
    forall x {:trigger step[x]} :: x in step ==> step[x] in step && DependsOn(cs, x, step[x])
  }

  lemma NextStep(cs: seq<Change>, step: map<string, string>, path: seq<string>) returns (y: string)
    requires Steps(cs, step) && IsPath(cs, step.Keys, path)
    ensures y in step && DependsOn(cs, path[|path| - 1], y)
  {
    y := step[path[|path| - 1]];
  }

  lemma {:induction false} PathMeetsItself(cs: seq<Change>, step: map<string, string>, path: seq<string>)
    requires Steps(cs, step) && IsPath(cs, step.Keys, path)
    ensures HasCycle(cs)
    decreases |step.Keys| - |path|
  {
    var y := NextStep(cs, step, path);
    if i :| 0 <= i < |path| && path[i] == y {
      PathClosesCycle(cs, step.Keys, path, i);
    } else {
      PathGrows(cs, step.Keys, path, y);
      PathFits(cs, step.Keys, path + [y]);
      PathMeetsItself(cs, step, path + [y]);
    }
  }

  /** Where every name of a non-empty set has a dependency inside the set, the graph has a cycle. */
  lemma StuckMeansCycle(cs: seq<Change>, step: map<string, string>)
    requires step.Keys != {} && Steps(cs, step)
    ensures HasCycle(cs)
  {
    var start :| start in step.Keys;
    PathMeetsItself(cs, step, [start]);
  }

  /** A graph with a topological order has no cycle. */
  lemma OrderedMeansAcyclic(cs: seq<Change>, out: seq<Change>)
    requires DistinctIds(cs) && IsOrder(cs, out)
    ensures !HasCycle(cs)
  {
    SameIds(cs, out);
    if HasCycle(cs) {
      var walk :| IsCycle(cs, walk);
      assert DependsOn(cs, walk[0], Next(walk, 0));
      assert walk[0] in walk && walk[0] in Ids(out[..|out|]) by {
        assert out[..|out|] == out;
      }
      NotBefore(cs, out, walk, |out|);
    }
  }

  lemma {:induction false} NotBefore(cs: seq<Change>, out: seq<Change>, walk: seq<string>, k: nat)
    requires DistinctIds(cs) && IsOrder(cs, out) && IsCycle(cs, walk) && k <= |out|
    ensures forall x :: x in walk ==> x !in Ids(out[..k])
  {
    if k > 0 {
      NotBefore(cs, out, walk, k - 1);
      SameIds(cs, out);
      var c := out[k - 1];
      assert out[..k] == out[..k - 1] + [c];
      assert c in cs && Enabled(c, out[..k - 1]);
      forall x | x in walk
        ensures x != c.id
      {
        var i :| 0 <= i < |walk| && walk[i] == x;
        assert Next(walk, i) in walk;
        assert DependsOn(cs, x, Next(walk, i));
        var c' :| c' in cs && c'.id == x && Next(walk, i) in c'.dependencies;
        if x == c.id {
          SameChange(cs, c, c');
        }
      }
    }
  }

  /** A numbering that falls along every dependency rules cycles out. */
  lemma RankedMeansAcyclic(cs: seq<Change>, rank: string -> nat)
    requires forall c, d :: c in cs && d in c.dependencies ==> rank(d) < rank(c.id)
    ensures !HasCycle(cs)
  {
    if HasCycle(cs) {
      var walk :| IsCycle(cs, walk);
      assert DependsOn(cs, walk[|walk| - 1], Next(walk, |walk| - 1));
      RankDescends(cs, rank, walk, |walk| - 1);
    }
  }

  lemma {:induction false} RankDescends(cs: seq<Change>, rank: string -> nat, walk: seq<string>, i: nat)
    requires forall c, d :: c in cs && d in c.dependencies ==> rank(d) < rank(c.id)
    requires IsCycle(cs, walk) && i < |walk|
    ensures rank(walk[i]) + i <= rank(walk[0])
  {
    if i > 0 {
      RankDescends(cs, rank, walk, i - 1);
      assert DependsOn(cs, walk[i - 1], Next(walk, i - 1));
    }
  }
}
