/** `internal/plan/plan.go`: lexical Kahn sorting of a plan's changes, in place. */
module PlanSort {
  import opened Text
  import opened PlanGraph

  datatype SortError =
    | Sorted_
    | EmptyId
    | DuplicateId(id: string)
    | AbsentDependency(id: string, dependency: string)
    | CycleDetected

  /** The IDs before position `i` are non-empty and distinct. */
  ghost predicate CleanUpTo(cs: seq<Change>, i: nat)
    requires i <= |cs|
  {
    DistinctIds(cs[..i]) && forall k :: 0 <= k < i ==> cs[k].id != ""
  }

  /** What each outcome says about the input; the outcomes exclude one another. */
  ghost predicate Explains(cs: seq<Change>, outcome: SortError) {
    match outcome
    case Sorted_ => WellFormed(cs) && !HasCycle(cs)
    case EmptyId => exists i :: 0 <= i < |cs| && CleanUpTo(cs, i) && cs[i].id == ""
    case DuplicateId(id) =>
      exists i :: 0 <= i < |cs| && CleanUpTo(cs, i) && cs[i].id == id && id != "" && id in Ids(cs[..i])
    case AbsentDependency(id, dependency) =>
      CleanUpTo(cs, |cs|) && DependsOn(cs, id, dependency) && dependency !in Ids(cs)
    case CycleDetected => WellFormed(cs) && HasCycle(cs)
  }

  /** The value of a map of counters, zero where unset. */
  function Count(m: map<string, int>, k: string): int {
    if k in m then m[k] else 0
  }

  function Children(next: map<string, seq<string>>, d: string): seq<string> {
    if d in next then next[d] else []
  }

  /** How many entries of `deps` are not yet done, counting repetitions. */
  ghost function Missing(deps: seq<string>, done: set<string>): nat {
    if deps == [] then 0 else (if deps[0] in done then 0 else 1) + Missing(deps[1..], done)
  }

  lemma {:induction false} MissingNone(deps: seq<string>, done: set<string>)
    ensures Missing(deps, done) == 0 <==> forall d :: d in deps ==> d in done
  {
    if deps != [] {
      MissingNone(deps[1..], done);
      assert deps == [deps[0]] + deps[1..];
    }
  }

  lemma {:induction false} MissingAll(deps: seq<string>)
    ensures Missing(deps, {}) == |deps|
  {
    if deps != [] {
      MissingAll(deps[1..]);
    }
  }

  lemma {:induction false} MissingDrops(deps: seq<string>, done: set<string>, id: string)
    requires id !in done
    ensures Missing(deps, done) == Missing(deps, done + {id}) + multiset(deps)[id]
  {
    if deps != [] {
      MissingDrops(deps[1..], done, id);
      assert deps == [deps[0]] + deps[1..];
      assert multiset(deps) == multiset{deps[0]} + multiset(deps[1..]);
    }
  }

  /** The first loop: index changes by ID, refusing empty and repeated IDs. */
  method IndexById(cs: seq<Change>) returns (outcome: SortError, byId: map<string, int>)
    ensures outcome.Sorted_? || outcome.EmptyId? || outcome.DuplicateId?
    ensures outcome.Sorted_? ==> CleanUpTo(cs, |cs|) && Indexes(cs, byId)
    ensures !outcome.Sorted_? ==> Explains(cs, outcome)
  {
    byId := map[];
    for i := 0 to |cs|
      invariant CleanUpTo(cs, i) && Indexes(cs[..i], byId)
    {
      if cs[i].id == "" {
        return EmptyId, byId;
      }
      if cs[i].id in byId {
        assert cs[..i][byId[cs[i].id]] in cs[..i];
        return DuplicateId(cs[i].id), byId;
      }
      byId := byId[cs[i].id := i];
      assert cs[..i + 1] == cs[..i] + [cs[i]];
    }
    assert cs[..|cs|] == cs;
    return Sorted_, byId;
  }

  ghost predicate Indexes(cs: seq<Change>, byId: map<string, int>) {
    && (forall i :: 0 <= i < |cs| ==> cs[i].id in byId && byId[cs[i].id] == i)
    && forall x :: x in byId ==> 0 <= byId[x] < |cs| && cs[byId[x]].id == x
  }

  lemma IndexesIds(cs: seq<Change>, byId: map<string, int>)
    requires Indexes(cs, byId)
    ensures byId.Keys == Ids(cs)
  {
    forall x | x in byId
      ensures x in Ids(cs)
    {
      assert cs[byId[x]] in cs;
    }
  }

  /** How often the counted part of change `k`'s dependencies names `d`. */
  ghost function Entries(cs: seq<Change>, i: nat, j: nat, k: nat, d: string): nat
    requires k < |cs| && (i < |cs| ==> j <= |cs[i].dependencies|)
  {
    if k < i then multiset(cs[k].dependencies)[d]
    else if k == i then multiset(cs[k].dependencies[..j])[d]
    else 0
  }

  lemma OneMoreEntry(cs: seq<Change>, next: map<string, seq<string>>, i: nat, j: nat, k: nat, d: string)
    requires k < |cs| && i < |cs| && j < |cs[i].dependencies|
    requires k != i ==> cs[k].id != cs[i].id
    requires multiset(Children(next, d))[cs[k].id] == Entries(cs, i, j, k, d)
    ensures var dep := cs[i].dependencies[j];
            multiset(Children(next[dep := Children(next, dep) + [cs[i].id]], d))[cs[k].id] ==
              Entries(cs, i, j + 1, k, d)
  {
    var deps := cs[i].dependencies;
    ChildAppended(next, deps[j], cs[i].id, d, cs[k].id);
    assert deps[..j + 1] == deps[..j] + [deps[j]];
  }

  /** The graph tables describe the first `i` changes and the first `j` dependencies of change `i`. */
  ghost predicate Tabulated(cs: seq<Change>, inDegree: map<string, int>, next: map<string, seq<string>>, i: nat, j: nat)
    requires i <= |cs| && (i < |cs| ==> j <= |cs[i].dependencies|)
  {
    && (forall k :: 0 <= k < |cs| ==>
          Count(inDegree, cs[k].id) == if k < i then |cs[k].dependencies| else if k == i then j else 0)
    && (forall k, d :: 0 <= k < |cs| ==>
          multiset(Children(next, d))[cs[k].id] == Entries(cs, i, j, k, d))
    && forall d, x :: x in Children(next, d) ==> x in Ids(cs)
  }

  lemma TabulateOne(cs: seq<Change>, inDegree: map<string, int>, next: map<string, seq<string>>, i: nat, j: nat,
                    inDegree': map<string, int>, next': map<string, seq<string>>)
    requires i < |cs| && j < |cs[i].dependencies| && DistinctIds(cs)
    requires Tabulated(cs, inDegree, next, i, j)
    requires inDegree' == inDegree[cs[i].id := Count(inDegree, cs[i].id) + 1]
    requires next' == next[cs[i].dependencies[j] := Children(next, cs[i].dependencies[j]) + [cs[i].id]]
    ensures Tabulated(cs, inDegree', next', i, j + 1)
  {
    forall k, d | 0 <= k < |cs|
      ensures multiset(Children(next', d))[cs[k].id] == Entries(cs, i, j + 1, k, d)
    {
      OneMoreEntry(cs, next, i, j, k, d);
    }
    forall d, x | x in Children(next', d)
      ensures x in Ids(cs)
    {
      ChildAppended(next, cs[i].dependencies[j], cs[i].id, d, x);
      assert cs[i] in cs;
    }
  }

  lemma ChildAppended(next: map<string, seq<string>>, dep: string, id: string, d: string, x: string)
    ensures var next' := next[dep := Children(next, dep) + [id]];
            && multiset(Children(next', d))[x] ==
               multiset(Children(next, d))[x] + (if d == dep && x == id then 1 else 0)
            && (x in Children(next', d) <==> x in Children(next, d) || (d == dep && x == id))
  {
    assert multiset(Children(next, dep) + [id]) == multiset(Children(next, dep)) + multiset{id};
  }

  /** The second loop: in-degrees and successor lists, one entry for each occurrence of a dependency. */
  method CountEdges(cs: seq<Change>, byId: map<string, int>)
    returns (outcome: SortError, inDegree: map<string, int>, next: map<string, seq<string>>)
    requires CleanUpTo(cs, |cs|) && Indexes(cs, byId)
    ensures outcome.Sorted_? || outcome.AbsentDependency?
    ensures outcome.Sorted_? ==> WellFormed(cs) && Tabulated(cs, inDegree, next, |cs|, 0)
    ensures !outcome.Sorted_? ==> Explains(cs, outcome)
  {
    inDegree, next := map[], map[];
    for i := 0 to |cs|
      invariant Tabulated(cs, inDegree, next, i, 0)
      invariant forall k, d :: 0 <= k < i && d in cs[k].dependencies ==> d in byId
    {
      outcome, inDegree, next := CountRow(cs, byId, inDegree, next, i);
      if !outcome.Sorted_? {
        return;
      }
      NextRow(cs, inDegree, next, i);
    }
    AllKnown(cs, byId);
    return Sorted_, inDegree, next;
  }

  lemma AllKnown(cs: seq<Change>, byId: map<string, int>)
    requires CleanUpTo(cs, |cs|) && Indexes(cs, byId)
    requires forall k, d :: 0 <= k < |cs| && d in cs[k].dependencies ==> d in byId
    ensures WellFormed(cs)
  {
    assert cs[..|cs|] == cs;
    IndexesIds(cs, byId);
  }

  /** The dependencies of one change. */
  method CountRow(cs: seq<Change>, byId: map<string, int>, inDegree0: map<string, int>, next0: map<string, seq<string>>,
                  i: nat)
    returns (outcome: SortError, inDegree: map<string, int>, next: map<string, seq<string>>)
    requires CleanUpTo(cs, |cs|) && Indexes(cs, byId) && i < |cs| && Tabulated(cs, inDegree0, next0, i, 0)
    ensures outcome.Sorted_? || outcome.AbsentDependency?
    ensures outcome.Sorted_? ==> forall d :: d in cs[i].dependencies ==> d in byId
    ensures outcome.Sorted_? ==> Tabulated(cs, inDegree, next, i, |cs[i].dependencies|)
    ensures !outcome.Sorted_? ==> Explains(cs, outcome)
  {
    assert cs[..|cs|] == cs;
    IndexesIds(cs, byId);
    var deps := cs[i].dependencies;
    inDegree, next := inDegree0, next0;
    for j := 0 to |deps|
      invariant Tabulated(cs, inDegree, next, i, j)
      invariant forall m :: 0 <= m < j ==> deps[m] in byId
    {
      if deps[j] !in byId {
        assert DependsOn(cs, cs[i].id, deps[j]);
        return AbsentDependency(cs[i].id, deps[j]), inDegree, next;
      }
      ghost var inDegree1, next1 := inDegree, next;
      inDegree := inDegree[cs[i].id := Count(inDegree, cs[i].id) + 1];
      next := next[deps[j] := Children(next, deps[j]) + [cs[i].id]];
      TabulateOne(cs, inDegree1, next1, i, j, inDegree, next);
    }
    return Sorted_, inDegree, next;
  }

  lemma NextRow(cs: seq<Change>, inDegree: map<string, int>, next: map<string, seq<string>>, i: nat)
    requires i < |cs| && Tabulated(cs, inDegree, next, i, |cs[i].dependencies|)
    ensures Tabulated(cs, inDegree, next, i + 1, 0)
  {
    assert cs[i].dependencies[..|cs[i].dependencies|] == cs[i].dependencies;
    forall k, d | 0 <= k < |cs|
      ensures multiset(Children(next, d))[cs[k].id] == Entries(cs, i + 1, 0, k, d)
    {
      assert multiset(Children(next, d))[cs[k].id] == Entries(cs, i, |cs[i].dependencies|, k, d);
    }
  }

  /** The main loop's bookkeeping: `out` is emitted, `ready` is what may come next. */
  ghost predicate Kept(cs: seq<Change>, inDegree: map<string, int>, out: seq<Change>, ready: seq<string>) {
    && Greedy(cs, out)
    && (forall k :: 0 <= k < |cs| ==> Count(inDegree, cs[k].id) == Missing(cs[k].dependencies, Ids(out)))
    && Distinct(ready)
    && (forall x :: x in ready ==> x in Ids(cs))
    && forall k :: 0 <= k < |cs| ==>
      (cs[k].id in ready <==> cs[k].id !in Ids(out) && Count(inDegree, cs[k].id) == 0)
  }

  /** Part-way through the children of the change just emitted. */
  ghost predicate Releasing(cs: seq<Change>, inDegree: map<string, int>, out: seq<Change>, ready: seq<string>,
                            kids: seq<string>, j: nat)
    requires j <= |kids|
  {
    && (forall k :: 0 <= k < |cs| ==>
          Count(inDegree, cs[k].id) == Missing(cs[k].dependencies, Ids(out)) + multiset(kids[j..])[cs[k].id])
    && Distinct(ready)
    && (forall x :: x in ready ==> x in Ids(cs))
    && forall k :: 0 <= k < |cs| ==>
      (cs[k].id in ready <==> cs[k].id !in Ids(out) && Count(inDegree, cs[k].id) == 0)
  }

  /** Taking the head of the sorted ready list is a greedy step. */
  lemma EmitsLeast(cs: seq<Change>, inDegree: map<string, int>, out: seq<Change>, ready: seq<string>, c: Change)
    requires DistinctIds(cs) && Kept(cs, inDegree, out, ready)
    requires ready != [] && Sorted(ready) && c in cs && c.id == ready[0]
    ensures GreedyAt(cs, out, c) && Greedy(cs, out + [c])
  {
    MissingNone(c.dependencies, Ids(out));
    forall other | other in cs && other.id !in Ids(out) && Enabled(other, out)
      ensures AtMost(c.id, other.id)
    {
      MissingNone(other.dependencies, Ids(out));
      assert other.id in ready;
      var i :| 0 <= i < |ready| && ready[i] == other.id;
      assert AtMost(ready[0], ready[i]);
    }
    forall k | 0 <= k < |out + [c]|
      ensures GreedyAt(cs, (out + [c])[..k], (out + [c])[k])
    {
      if k < |out| {
        assert (out + [c])[..k] == out[..k];
        assert GreedyAt(cs, out[..k], out[k]);
      } else {
        assert (out + [c])[..k] == out;
      }
    }
  }

  /** Emitting a change turns each of its successor entries into a pending decrement. */
  lemma StartRelease(cs: seq<Change>, inDegree: map<string, int>, out: seq<Change>, ready: seq<string>,
                     c: Change, kids: seq<string>)
    requires DistinctIds(cs) && Kept(cs, inDegree, out, ready)
    requires ready != [] && c in cs && c.id == ready[0]
    requires SuccessorsOf(cs, c, kids)
    ensures Releasing(cs, inDegree, out + [c], ready[1..], kids, 0)
  {
    assert Ids(out + [c]) == Ids(out) + {c.id};
    assert kids[0..] == kids;
    assert c.id !in Ids(out);
    forall k | 0 <= k < |cs|
      ensures Count(inDegree, cs[k].id) == Missing(cs[k].dependencies, Ids(out + [c])) + multiset(kids[0..])[cs[k].id]
    {
      MissingDrops(cs[k].dependencies, Ids(out), c.id);
    }
    assert ready == [ready[0]] + ready[1..];
    assert forall x :: x in ready[1..] <==> x in ready && x != c.id;
  }

  /** Emitted changes have all their dependencies emitted. */
  lemma EmittedEnabled(cs: seq<Change>, out: seq<Change>, c: Change)
    requires DistinctIds(cs) && Greedy(cs, out) && c in cs && c.id in Ids(out)
    ensures Missing(c.dependencies, Ids(out)) == 0
  {
    var k :| 0 <= k < |out| && out[k].id == c.id;
    assert GreedyAt(cs, out[..k], out[k]);
    SameChange(cs, c, out[k]);
    MissingNone(c.dependencies, Ids(out));
  }

  /** One decrement of the inner loop. */
  lemma ReleaseOne(cs: seq<Change>, inDegree: map<string, int>, out: seq<Change>, ready: seq<string>,
                   kids: seq<string>, j: nat, inDegree': map<string, int>, ready': seq<string>)
    requires DistinctIds(cs) && j < |kids| && kids[j] in Ids(cs)
    requires Releasing(cs, inDegree, out, ready, kids, j)
    requires forall c :: c in cs && c.id in kids ==> c.id !in Ids(out)
    requires inDegree' == inDegree[kids[j] := Count(inDegree, kids[j]) - 1]
    requires ready' == if Count(inDegree', kids[j]) == 0 then ready + [kids[j]] else ready
    ensures Releasing(cs, inDegree', out, ready', kids, j + 1)
  {
    assert kids[j..] == [kids[j]] + kids[j + 1..];
    assert multiset(kids[j..]) == multiset{kids[j]} + multiset(kids[j + 1..]);
    var c :| c in cs && c.id == kids[j];
    assert Count(inDegree, kids[j]) > 0;
    assert kids[j] !in ready;
  }

  /** The changes without dependencies, sorted. */
  method InitialReady(cs: seq<Change>, inDegree: map<string, int>, ghost next: map<string, seq<string>>)
    returns (ready: seq<string>)
    requires DistinctIds(cs) && Tabulated(cs, inDegree, next, |cs|, 0)
    ensures Kept(cs, inDegree, [], ready) && Sorted(ready)
  {
    ready := [];
    for i := 0 to |cs|
      invariant Distinct(ready)
      invariant forall x :: x in ready ==> x in Ids(cs[..i]) && x in Ids(cs)
      invariant forall k :: 0 <= k < i ==> (cs[k].id in ready <==> Count(inDegree, cs[k].id) == 0)
    {
      assert cs[i] in cs && cs[i].id !in Ids(cs[..i]);
      assert cs[..i + 1] == cs[..i] + [cs[i]];
      if Count(inDegree, cs[i].id) == 0 {
        ready := ready + [cs[i].id];
      }
    }
    ghost var unsorted := ready;
    ready := SortStrings(ready);
    SameStrings(unsorted, ready);
    assert Ids([]) == {};
    forall k | 0 <= k < |cs| { MissingAll(cs[k].dependencies); }
  }

  /** The inner loop: one decrement for each entry of the successor list, then sort the ready list again. */
  method Release(cs: seq<Change>, inDegree0: map<string, int>, ghost out: seq<Change>, ready0: seq<string>,
                 kids: seq<string>)
    returns (inDegree: map<string, int>, ready: seq<string>)
    requires DistinctIds(cs) && Greedy(cs, out) && Releasing(cs, inDegree0, out, ready0, kids, 0)
    requires forall x :: x in kids ==> x in Ids(cs)
    requires forall c :: c in cs && c.id in kids ==> c.id !in Ids(out)
    ensures Kept(cs, inDegree, out, ready) && Sorted(ready)
  {
    inDegree, ready := inDegree0, ready0;
    for j := 0 to |kids|
      invariant Releasing(cs, inDegree, out, ready, kids, j)
    {
      ghost var inDegree1, ready1 := inDegree, ready;
      inDegree := inDegree[kids[j] := Count(inDegree, kids[j]) - 1];
      if Count(inDegree, kids[j]) == 0 {
        ready := ready + [kids[j]];
      }
      ReleaseOne(cs, inDegree1, out, ready1, kids, j, inDegree, ready);
    }
    ghost var unsorted := ready;
    ready := SortStrings(ready);
    SameStrings(unsorted, ready);
  }

  /** The main loop: emit the least ready change, release its successors, repeat. */
  method Emit(cs: seq<Change>, byId: map<string, int>, inDegree0: map<string, int>, next: map<string, seq<string>>)
    returns (ordered: seq<Change>)
    requires WellFormed(cs) && Indexes(cs, byId) && Tabulated(cs, inDegree0, next, |cs|, 0)
    ensures Greedy(cs, ordered)
    ensures forall c :: c in cs && c.id !in Ids(ordered) ==> !Enabled(c, ordered)
  {
    var inDegree := inDegree0;
    var ready := InitialReady(cs, inDegree, next);
    ordered := [];
    while ready != []
      invariant Kept(cs, inDegree, ordered, ready) && Sorted(ready)
      decreases |Ids(cs) - Ids(ordered)|
    {
      var id := ready[0];
      IndexesIds(cs, byId);
      var c := cs[byId[id]];
      var kids := Children(next, id);
      TabulatedSuccessors(cs, inDegree0, next, c);
      EmitStep(cs, inDegree, ordered, ready, c, kids);
      ordered := ordered + [c];
      inDegree, ready := Release(cs, inDegree, ordered, ready[1..], kids);
    }
    AllReleased(cs, inDegree, ordered);
  }

  /** What the tables say about one change's successors. */
  ghost predicate SuccessorsOf(cs: seq<Change>, c: Change, kids: seq<string>) {
    && (forall k :: 0 <= k < |cs| ==> multiset(kids)[cs[k].id] == multiset(cs[k].dependencies)[c.id])
    && forall x :: x in kids ==> x in Ids(cs)
  }

  lemma TabulatedSuccessors(cs: seq<Change>, inDegree: map<string, int>, next: map<string, seq<string>>, c: Change)
    requires Tabulated(cs, inDegree, next, |cs|, 0)
    ensures SuccessorsOf(cs, c, Children(next, c.id))
  {
    forall k | 0 <= k < |cs|
      ensures multiset(Children(next, c.id))[cs[k].id] == multiset(cs[k].dependencies)[c.id]
    {
      assert Entries(cs, |cs|, 0, k, c.id) == multiset(cs[k].dependencies)[c.id];
    }
  }

  /** Everything the inner loop needs to know about the change just taken. */
  lemma EmitStep(cs: seq<Change>, inDegree: map<string, int>, out: seq<Change>, ready: seq<string>, c: Change,
                 kids: seq<string>)
    requires DistinctIds(cs) && Kept(cs, inDegree, out, ready) && Sorted(ready)
    requires ready != [] && c in cs && c.id == ready[0] && SuccessorsOf(cs, c, kids)
    ensures Greedy(cs, out + [c]) && Releasing(cs, inDegree, out + [c], ready[1..], kids, 0)
    ensures forall other :: other in cs && other.id in kids ==> other.id !in Ids(out + [c])
    ensures |Ids(cs) - Ids(out + [c])| < |Ids(cs) - Ids(out)|
  {
    assert Greedy(cs, out + [c]) && GreedyAt(cs, out, c) by {
      EmitsLeast(cs, inDegree, out, ready, c);
    }
    assert Releasing(cs, inDegree, out + [c], ready[1..], kids, 0) by {
      StartRelease(cs, inDegree, out, ready, c, kids);
    }
    KidsPending(cs, out, c, kids);
    Shrinks(cs, out, c);
  }

  lemma Shrinks(cs: seq<Change>, out: seq<Change>, c: Change)
    requires c in cs && c.id !in Ids(out)
    ensures |Ids(cs) - Ids(out + [c])| < |Ids(cs) - Ids(out)|
  {
    assert Ids(cs) - Ids(out + [c]) == (Ids(cs) - Ids(out)) - {c.id};
  }

  lemma AllReleased(cs: seq<Change>, inDegree: map<string, int>, out: seq<Change>)
    requires Kept(cs, inDegree, out, [])
    ensures forall c :: c in cs && c.id !in Ids(out) ==> !Enabled(c, out)
  {
    forall c | c in cs && c.id !in Ids(out)
      ensures !Enabled(c, out)
    {
      var k :| 0 <= k < |cs| && cs[k] == c;
      MissingNone(c.dependencies, Ids(out));
      assert cs[k].id !in [];
    }
  }

  lemma {:induction false} SameStrings(p: seq<string>, q: seq<string>)
    requires multiset(p) == multiset(q) && Distinct(p)
    ensures Distinct(q) && forall x :: x in p <==> x in q
  {
    forall x
      ensures x in p <==> x in q
    {
      assert x in p <==> x in multiset(p);
      assert x in q <==> x in multiset(q);
    }
    forall i, j | 0 <= i < j < |q|
      ensures q[i] != q[j]
    {
      OnceEach(p, q[i]);
      assert q == q[..j] + [q[j]] + q[j + 1..];
      assert q[i] in q[..j];
      assert multiset(q)[q[j]] >= 1 + multiset(q[..j])[q[j]];
    }
  }

  /** The successors of a change not yet emitted are not yet emitted either. */
  lemma KidsPending(cs: seq<Change>, out: seq<Change>, c: Change, kids: seq<string>)
    requires DistinctIds(cs) && SuccessorsOf(cs, c, kids)
    requires Greedy(cs, out) && GreedyAt(cs, out, c)
    ensures forall other :: other in cs && other.id in kids ==> other.id !in Ids(out + [c])
  {
    forall other | other in cs && other.id in kids
      ensures other.id !in Ids(out + [c])
    {
      var k :| 0 <= k < |cs| && cs[k] == other;
      assert other.id in multiset(kids);
      assert c.id in multiset(other.dependencies);
      MissingNone(other.dependencies, Ids(out));
      if other.id in Ids(out) {
        EmittedEnabled(cs, out, other);
      } else if other.id == c.id {
        SameChange(cs, other, c);
      }
    }
  }

  lemma {:induction false} ElementsAtMost<T>(s: seq<T>)
    ensures |set x | x in s| <= |s|
  {
    if s != [] {
      ElementsAtMost(s[1..]);
      assert s == [s[0]] + s[1..];
      assert (set x | x in s) == {s[0]} + set x | x in s[1..];
    }
  }

  /** When as many changes came out as went in, they are the same changes. */
  lemma AllEmitted(cs: seq<Change>, out: seq<Change>)
    requires DistinctIds(cs) && Greedy(cs, out)
    ensures |out| <= |cs|
    ensures |out| == |cs| ==> multiset(out) == multiset(cs)
    ensures |out| != |cs| ==> exists k :: 0 <= k < |cs| && cs[k] !in out
  {
    var all := set c | c in cs;
    ElementsAtMost(cs);
    DistinctLength(out, all);
    if forall k :: 0 <= k < |cs| ==> cs[k] in out {
      ElementsAtMost(out);
      assert (set c | c in out) == all;
      DistinctLength(cs, all);
    }
    if |out| == |cs| {
      SameElementsOnce(cs, out);
    }
  }

  lemma SameElementsOnce(cs: seq<Change>, out: seq<Change>)
    requires DistinctIds(cs) && DistinctIds(out) && forall c :: c in out <==> c in cs
    ensures multiset(out) == multiset(cs)
  {
    forall c
      ensures multiset(out)[c] == multiset(cs)[c]
    {
      OnceEach(out, c);
      OnceEach(cs, c);
      assert c in multiset(out) <==> c in out;
      assert c in multiset(cs) <==> c in cs;
    }
  }

  ghost function BlockingDependency(cs: seq<Change>, out: seq<Change>, x: string): (d: string)
    requires Closed(cs) && x in Ids(cs)
    requires forall c :: c in cs && c.id == x ==> !Enabled(c, out)
    ensures d in Ids(cs) && d !in Ids(out) && DependsOn(cs, x, d)
  {
    var c :| c in cs && c.id == x;
    assert !Enabled(c, out);
    var d :| d in c.dependencies && d !in Ids(out);
    d
  }

  /** When the loop runs dry early, what is left contains a cycle; when it does not, there is none. */
  lemma CompleteIffAcyclic(cs: seq<Change>, out: seq<Change>)
    requires WellFormed(cs) && Greedy(cs, out)
    requires forall c :: c in cs && c.id !in Ids(out) ==> !Enabled(c, out)
    ensures |out| == |cs| <==> !HasCycle(cs)
    ensures |out| == |cs| ==> CanonicalOrder(cs, out)
  {
    AllEmitted(cs, out);
    if |out| == |cs| {
      assert IsOrder(cs, out) by {
        forall k | 0 <= k < |out|
          ensures Enabled(out[k], out[..k])
        {
          assert GreedyAt(cs, out[..k], out[k]);
        }
      }
      OrderedMeansAcyclic(cs, out);
      forall p | IsOrder(cs, p)
        ensures LexAtMost(out, p)
      {
        GreedyIsLeast(cs, out, p);
      }
    } else {
      var k :| 0 <= k < |cs| && cs[k] !in out;
      var left := cs[k];
      assert left.id !in Ids(out) by {
        forall c | c in out
          ensures c.id != left.id
        {
          if c.id == left.id {
            SameChange(cs, c, left);
          }
        }
      }
      var step := map x | x in Ids(cs) - Ids(out) :: BlockingDependency(cs, out, x);
      assert left.id in step;
      StuckMeansCycle(cs, step);
    }
  }

  /** The order of the changes, or the reason there is none. */
  method Order(cs: seq<Change>) returns (outcome: SortError, ordered: seq<Change>)
    ensures Explains(cs, outcome)
    ensures outcome.Sorted_? ==> CanonicalOrder(cs, ordered) && |ordered| == |cs|
  {
    var byId: map<string, int>;
    ordered := [];
    outcome, byId := IndexById(cs);
    if !outcome.Sorted_? {
      return;
    }
    var inDegree, next;
    outcome, inDegree, next := CountEdges(cs, byId);
    if !outcome.Sorted_? {
      return;
    }
    ordered := Emit(cs, byId, inDegree, next);
    CompleteIffAcyclic(cs, ordered);
    outcome := if |ordered| != |cs| then CycleDetected else Sorted_;
  }

  /** Sort the caller's changes in place, or leave them alone and say why not. */
  method SortChanges(changes: array<Change>) returns (outcome: SortError)
    modifies changes
    ensures Explains(old(changes[..]), outcome)
    ensures outcome.Sorted_? ==> CanonicalOrder(old(changes[..]), changes[..])
    ensures !outcome.Sorted_? ==> changes[..] == old(changes[..])
  {
    var ordered;
    outcome, ordered := Order(changes[..]);
    if outcome.Sorted_? {
      for i := 0 to changes.Length
        invariant changes[..i] == ordered[..i]
      {
        changes[i] := ordered[i];
        assert ordered[..i + 1] == ordered[..i] + [ordered[i]];
      }
      assert changes[..] == ordered[..changes.Length] == ordered;
    }
  }

  /** Sorting succeeds exactly on well-formed acyclic input, and blames a cycle exactly when there is one. */
  lemma FailsExactlyWhen(cs: seq<Change>, outcome: SortError)
    requires Explains(cs, outcome)
    ensures outcome.Sorted_? <==> WellFormed(cs) && !HasCycle(cs)
    ensures outcome.CycleDetected? <==> WellFormed(cs) && HasCycle(cs)
    ensures outcome.AbsentDependency? <==> CleanUpTo(cs, |cs|) && !Closed(cs)
  {
    assert cs[..|cs|] == cs;
    match outcome
    case Sorted_ =>
    case CycleDetected =>
    case EmptyId =>
      var i :| 0 <= i < |cs| && CleanUpTo(cs, i) && cs[i].id == "";
      assert cs[i] in cs;
    case DuplicateId(id) =>
      var i :| 0 <= i < |cs| && CleanUpTo(cs, i) && cs[i].id == id && id in Ids(cs[..i]);
      var j :| 0 <= j < i && cs[..i][j].id == id;
      assert cs[j].id == cs[i].id;
    case AbsentDependency(id, dependency) =>
      var c :| c in cs && c.id == id && dependency in c.dependencies;
  }
}
