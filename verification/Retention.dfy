/** `internal/backup/retention.go`: which automated snapshots go, and that only those go. */
module Retention {
  import Keyed
  import opened Text
  import opened Snapshot
  import opened Ordering
  import opened Repository

  datatype RetentionPlan = RetentionPlan(scope: string, keepLast: int, remove: seq<Summary>,
                                         corruptSkipped: seq<string>)

  /** A listed snapshot that carries exactly this maintenance scope. */
  predicate InScope(completed: Snapshots, scope: string, id: string) {
    && Listed(completed, id) && LoadManifest(completed[id]).value.maintenance.Some?
    && LoadManifest(completed[id]).value.maintenance.value.scope == scope
  }

  ghost predicate Candidate(completed: Snapshots, scope: string, id: string) {
    InScope(completed, scope, id) && Verified(completed, LoadManifest(completed[id]).value.snapshotId).Some?
  }

  ghost function Candidates(completed: Snapshots, scope: string): set<string> {
    set id | id in completed && Candidate(completed, scope, id)
  }

  ghost function Corrupt(completed: Snapshots, scope: string): set<string> {
    set id | id in completed && InScope(completed, scope, id) && !Candidate(completed, scope, id)
  }

  /** Oldest first: by creation time, then by identifier. */
  predicate Older(x: Summary, y: Summary) {
    x.createdAt < y.createdAt || (x.createdAt == y.createdAt && AtMost(x.snapshotId, y.snapshotId))
  }

  function Oldest(): (Summary, Summary) -> bool {
    (x: Summary, y: Summary) => Older(x, y)
  }

  lemma OldestOrders()
    ensures TotalPreorder(Oldest())
  {
    forall x: Summary, y: Summary
      ensures Older(x, y) || Older(y, x)
    {
      LessTotal(x.snapshotId, y.snapshotId);
    }
    forall x: Summary, y: Summary, z: Summary | Older(x, y) && Older(y, z)
      ensures Older(x, z)
    {
      if x.createdAt == y.createdAt == z.createdAt {
        AtMostTransitive(x.snapshotId, y.snapshotId, z.snapshotId);
      }
    }
  }

  function Ids(summaries: seq<Summary>): set<string> {
    set s | s in summaries :: s.snapshotId
  }

  ghost predicate DistinctIds(summaries: seq<Summary>) {
    forall i, j :: 0 <= i < j < |summaries| ==> summaries[i].snapshotId != summaries[j].snapshotId
  }

  /** The candidates of a scope, each once, oldest first. */
  ghost predicate Aged(completed: Snapshots, scope: string, aged: seq<Summary>) {
    && SortedBy(Oldest(), aged) && DistinctIds(aged)
    && Ids(aged) == Candidates(completed, scope)
    && forall i :: 0 <= i < |aged| ==> aged[i] == SummaryAt(completed, aged[i].snapshotId)
  }

  ghost function SummaryAt(completed: Snapshots, id: string): Summary {
    if Listed(completed, id) then SummaryOf(completed, id) else Summary(id, 0, "", [], 0, NoSum)
  }

  /** The candidates outside `todo` in some order, with the directories they are in. */
  ghost predicate CollectedBut(completed: Snapshots, scope: string, todo: set<string>,
                               dirs: seq<string>, candidates: seq<Summary>)
  {
    && Distinct(dirs) && |candidates| == |dirs|
    && (forall dir :: dir in dirs <==> dir in Candidates(completed, scope) - todo)
    && forall i :: 0 <= i < |dirs| ==> candidates[i] == SummaryAt(completed, dirs[i])
  }

  ghost predicate Collected(completed: Snapshots, scope: string, dirs: seq<string>, candidates: seq<Summary>) {
    CollectedBut(completed, scope, {}, dirs, candidates)
  }

  /** The identifiers that the manifests of some snapshots state. */
  ghost function Stated(completed: Snapshots, dirs: set<string>): set<string> {
    set dir | dir in dirs :: SummaryAt(completed, dir).snapshotId
  }

  /**
   * The plan removes the oldest surplus of what was collected. Where directories are named after their manifests,
   * which every operation keeps, that is each verified snapshot of the scope once.
   */
  method PlanRetention(repository: Repository, scope: string, keepLast: int)
    returns (plan: Option<RetentionPlan>, ghost aged: seq<Summary>)
    ensures plan.Some? <==> |scope| == 64 && keepLast >= 1
    ensures plan.Some? ==>
              && plan.value.scope == scope && plan.value.keepLast == keepLast
              && (exists dirs, candidates ::
                    Collected(repository.completed, scope, dirs, candidates) && SortOf(Oldest(), candidates, aged))
              && plan.value.remove == aged[..if |aged| > keepLast then |aged| - keepLast else 0]
              && Sorted(plan.value.corruptSkipped)
              && forall id :: id in plan.value.corruptSkipped <==>
                   id in Stated(repository.completed, Corrupt(repository.completed, scope))
    ensures plan.Some? && Named(repository.completed) ==>
              && Aged(repository.completed, scope, aged)
              && forall id :: id in plan.value.corruptSkipped <==> id in Corrupt(repository.completed, scope)
  {
    aged := [];
    if |scope| != 64 || keepLast < 1 {
      return None, [];
    }
    ghost var dirs;
    var candidates, corrupt;
    candidates, corrupt, dirs := CollectCandidates(repository, scope);
    OldestOrders();
    var sorted := SortBy(candidates, Oldest());
    if Named(repository.completed) {
      CollectedNamed(repository.completed, scope, dirs, candidates);
      AgedSort(repository.completed, scope, candidates, sorted);
    }
    var skipped := SortStrings(corrupt);
    SameElements(corrupt, skipped);
    aged := sorted;
    var remove := if |sorted| > keepLast then sorted[..|sorted| - keepLast] else [];
    plan := Some(RetentionPlan(scope, keepLast, remove, skipped));
  }

  method CollectCandidates(repository: Repository, scope: string)
    returns (candidates: seq<Summary>, corrupt: seq<string>, ghost dirs: seq<string>)
    ensures Collected(repository.completed, scope, dirs, candidates)
    ensures forall id :: id in corrupt <==> id in Stated(repository.completed, Corrupt(repository.completed, scope))
  {
    candidates, corrupt, dirs := [], [], [];
    var completed := repository.completed;
    var todo := completed.Keys;
    while todo != {}
      invariant todo <= completed.Keys && CollectedBut(completed, scope, todo, dirs, candidates)
      invariant forall id :: id in corrupt <==> id in Stated(completed, Corrupt(completed, scope) - todo)
      decreases todo
    {
      var id :| id in todo;
      if InScope(completed, scope, id) {
        var stated := LoadManifest(completed[id]).value.snapshotId;
        var verified := repository.Verify(stated);
        if verified.None? {
          SkippedOneMore(completed, scope, todo, id);
          corrupt := corrupt + [stated];
        } else {
          CollectedOneMore(completed, scope, todo, id, dirs, candidates);
          candidates, dirs := candidates + [SummaryOf(completed, id)], dirs + [id];
        }
      } else {
        OtherOneMore(completed, scope, todo, id);
      }
      todo := todo - {id};
    }
    assert Corrupt(completed, scope) - todo == Corrupt(completed, scope);
  }

  lemma CollectedOneMore(completed: Snapshots, scope: string, todo: set<string>, id: string,
                         dirs: seq<string>, candidates: seq<Summary>)
    requires CollectedBut(completed, scope, todo, dirs, candidates) && id in todo && Candidate(completed, scope, id)
    ensures CollectedBut(completed, scope, todo - {id}, dirs + [id], candidates + [SummaryOf(completed, id)])
    ensures Corrupt(completed, scope) - (todo - {id}) == Corrupt(completed, scope) - todo
  {
    assert forall dir :: dir in dirs + [id] <==> dir in dirs || dir == id;
    assert forall i :: 0 <= i < |dirs| ==> dirs[i] in dirs;
  }

  lemma SkippedOneMore(completed: Snapshots, scope: string, todo: set<string>, id: string)
    requires id in todo && id in Corrupt(completed, scope)
    ensures Candidates(completed, scope) - (todo - {id}) == Candidates(completed, scope) - todo
    ensures Stated(completed, Corrupt(completed, scope) - (todo - {id})) ==
            Stated(completed, Corrupt(completed, scope) - todo) + {SummaryAt(completed, id).snapshotId}
  {
    assert Corrupt(completed, scope) - (todo - {id}) == Corrupt(completed, scope) - todo + {id};
  }

  lemma OtherOneMore(completed: Snapshots, scope: string, todo: set<string>, id: string)
    requires !InScope(completed, scope, id)
    ensures Candidates(completed, scope) - (todo - {id}) == Candidates(completed, scope) - todo
    ensures Corrupt(completed, scope) - (todo - {id}) == Corrupt(completed, scope) - todo
  {
  }

  /** Where directories carry the identifiers their manifests state, the candidates are known by identifier. */
  lemma CollectedNamed(completed: Snapshots, scope: string, dirs: seq<string>, candidates: seq<Summary>)
    requires Named(completed) && Collected(completed, scope, dirs, candidates)
    ensures DistinctIds(candidates) && Ids(candidates) == Candidates(completed, scope)
    ensures forall i :: 0 <= i < |candidates| ==> candidates[i] == SummaryAt(completed, candidates[i].snapshotId)
    ensures Stated(completed, Corrupt(completed, scope)) == Corrupt(completed, scope)
  {
    var all := Candidates(completed, scope);
    assert all - {} == all;
    forall i | 0 <= i < |dirs|
      ensures candidates[i].snapshotId == dirs[i] && dirs[i] in all
    {
      assert dirs[i] in dirs;
    }
    forall dir | dir in all
      ensures dir in Ids(candidates)
    {
      assert dir in all - {} && dir in dirs;
      var i :| 0 <= i < |dirs| && dirs[i] == dir;
      assert candidates[i].snapshotId == dir;
    }
  }

  lemma AgedSort(completed: Snapshots, scope: string, candidates: seq<Summary>, sorted: seq<Summary>)
    requires SortOf(Oldest(), candidates, sorted) && DistinctIds(candidates)
    requires Ids(candidates) == Candidates(completed, scope)
    requires forall i :: 0 <= i < |candidates| ==> candidates[i] == SummaryAt(completed, candidates[i].snapshotId)
    ensures Aged(completed, scope, sorted)
  {
    SameElements(candidates, sorted);
    var key := (s: Summary) => s.snapshotId;
    Keyed.DistinctKeysRearranged(candidates, sorted, key);
    assert forall i, j :: 0 <= i < j < |sorted| ==> key(sorted[i]) != key(sorted[j]);
    assert forall i :: 0 <= i < |sorted| ==> sorted[i] in candidates;
  }

  /** Deletes in plan order and stops at the first failure, having deleted exactly the plan's first entries. */
  method ApplyRetention(repository: Repository, plan: RetentionPlan, faults: nat -> DeleteFault)
    returns (ok: bool, deleted: nat)
    modifies repository`completed
    ensures deleted <= |plan.remove| && (ok <==> deleted == |plan.remove|)
    ensures ok ==> repository.completed == old(repository.completed) - Ids(plan.remove)
    ensures !ok ==>
              && (Verified(old(repository.completed) - Ids(plan.remove[..deleted]),
                           plan.remove[deleted].snapshotId).None?
                  || !faults(deleted).NoDeleteFault?)
              && Step(old(repository.completed) - Ids(plan.remove[..deleted]), repository.completed,
                      Erased(plan.remove[deleted].snapshotId, faults(deleted)))
  {
    deleted := 0;
    assert old(repository.completed) - Ids(plan.remove[..0]) == old(repository.completed);
    while deleted < |plan.remove|
      invariant deleted <= |plan.remove|
      invariant repository.completed == old(repository.completed) - Ids(plan.remove[..deleted])
    {
      ok := repository.Delete(plan.remove[deleted].snapshotId, faults(deleted));
      if !ok {
        return;
      }
      OneMoreId(plan.remove, deleted);
      deleted := deleted + 1;
    }
    assert plan.remove[..|plan.remove|] == plan.remove;
    return true, deleted;
  }

  lemma OneMoreId(remove: seq<Summary>, i: nat)
    requires i < |remove|
    ensures Ids(remove[..i + 1]) == Ids(remove[..i]) + {remove[i].snapshotId}
  {
    assert remove[..i + 1] == remove[..i] + [remove[i]];
  }

  // ---- what planning and applying together leave

  /** Every snapshot of a fresh plan still verifies when its turn comes: without a fault, applying it succeeds. */
  lemma PlannedIsDeletable(completed: Snapshots, scope: string, aged: seq<Summary>, n: nat, i: nat)
    requires Named(completed) && Aged(completed, scope, aged) && i < n <= |aged|
    ensures Verified(completed - Ids(aged[..n][..i]), aged[..n][i].snapshotId).Some?
  {
    var gone := Ids(aged[..n][..i]);
    var id := aged[i].snapshotId;
    assert aged[i] in aged;
    assert id in Ids(aged);
    assert aged[..n][..i] == aged[..i];
    assert id !in gone;
  }

  /**
   * After a plan is applied, the scope's verified snapshots are exactly its newest `keepLast`, or all there were;
   * nothing kept is older than anything removed, and every other directory is untouched.
   */
  lemma KeepsNewest(completed: Snapshots, scope: string, aged: seq<Summary>, keepLast: nat, after: Snapshots)
    requires Named(completed) && Aged(completed, scope, aged) && keepLast >= 1
    requires after == completed - Ids(aged[..Excess(aged, keepLast)])
    ensures Aged(after, scope, aged[Excess(aged, keepLast)..])
    ensures |Candidates(after, scope)| ==
            if |Candidates(completed, scope)| < keepLast then |Candidates(completed, scope)| else keepLast
    ensures forall gone, kept ::
              gone in Candidates(completed, scope) - Candidates(after, scope) && kept in Candidates(after, scope) ==>
              CreatedBefore(LoadManifest(completed[gone]).value, LoadManifest(completed[kept]).value)
    ensures forall id :: id !in Candidates(completed, scope) ==> (id in after <==> id in completed)
    ensures forall id :: id in after ==> after[id] == completed[id]
  {
    var n := Excess(aged, keepLast);
    KeptCandidates(completed, scope, aged, n);
    forall gone, kept | gone in Candidates(completed, scope) - Candidates(after, scope)
                        && kept in Candidates(after, scope)
      ensures CreatedBefore(LoadManifest(completed[gone]).value, LoadManifest(completed[kept]).value)
    {
      RemovedBeforeKept(completed, scope, aged, n, gone, kept);
    }
    KeptAged(completed, scope, aged, n);
    IdsCounted(aged);
    IdsCounted(aged[n..]);
  }

  lemma KeptCandidates(completed: Snapshots, scope: string, aged: seq<Summary>, n: nat)
    requires Named(completed) && Aged(completed, scope, aged) && n <= |aged|
    ensures Candidates(completed - Ids(aged[..n]), scope) == Ids(aged[n..])
    ensures Candidates(completed, scope) - Ids(aged[n..]) == Ids(aged[..n])
  {
    SplitIds(aged, n);
  }

  lemma KeptAged(completed: Snapshots, scope: string, aged: seq<Summary>, n: nat)
    requires Named(completed) && Aged(completed, scope, aged) && n <= |aged|
    ensures Aged(completed - Ids(aged[..n]), scope, aged[n..])
  {
    KeptCandidates(completed, scope, aged, n);
    SplitIds(aged, n);
    var rest := aged[n..];
    forall i | 0 <= i < |rest|
      ensures rest[i] == SummaryAt(completed - Ids(aged[..n]), rest[i].snapshotId)
    {
      assert rest[i] == aged[n + i] && rest[i].snapshotId in Ids(rest);
    }
  }

  /** Of two snapshots created at one time, the lesser identifier counts as the older. */
  predicate CreatedBefore(x: Manifest, y: Manifest) {
    x.createdAt < y.createdAt || (x.createdAt == y.createdAt && Less(x.snapshotId, y.snapshotId))
  }

  lemma RemovedBeforeKept(completed: Snapshots, scope: string, aged: seq<Summary>, n: nat, gone: string, kept: string)
    requires Named(completed) && Aged(completed, scope, aged) && n <= |aged|
    requires gone in Ids(aged[..n]) && kept in Ids(aged[n..])
    ensures Listed(completed, gone) && Listed(completed, kept)
    ensures CreatedBefore(LoadManifest(completed[gone]).value, LoadManifest(completed[kept]).value)
  {
    var i :| 0 <= i < n && aged[i].snapshotId == gone;
    var j :| n <= j < |aged| && aged[j].snapshotId == kept;
    assert gone in Ids(aged) && kept in Ids(aged);
    assert Oldest()(aged[i], aged[j]);
  }

  function Excess(aged: seq<Summary>, keepLast: nat): (n: nat)
    ensures n <= |aged|
  {
    if |aged| > keepLast then |aged| - keepLast else 0
  }

  lemma SplitIds(aged: seq<Summary>, n: nat)
    requires n <= |aged| && DistinctIds(aged)
    ensures Ids(aged) == Ids(aged[..n]) + Ids(aged[n..]) && Ids(aged[..n]) !! Ids(aged[n..])
    ensures DistinctIds(aged[n..])
  {
    assert aged == aged[..n] + aged[n..];
    forall x, y | x in aged[..n] && y in aged[n..]
      ensures x.snapshotId != y.snapshotId
    {
      var i :| 0 <= i < n && aged[i] == x;
      var j :| n <= j < |aged| && aged[j] == y;
    }
  }

  lemma {:induction false} IdsCounted(aged: seq<Summary>)
    requires DistinctIds(aged)
    ensures |Ids(aged)| == |aged|
  {
    if aged != [] {
      var n := |aged| - 1;
      IdsCounted(aged[..n]);
      OneMoreId(aged, n);
      assert aged[..n + 1] == aged;
      assert forall s :: s in aged[..n] ==> s.snapshotId != aged[n].snapshotId;
    }
  }

  /**
   * The names matter: with one snapshot and a copy of it under another name, keeping one removes the snapshot itself,
   * and nothing of the scope verifies any more.
   */
  lemma MisnamedCopy(id: string, copy: string, dir: Dir, scope: string)
    requires id != copy && ValidSnapshotId(copy)
    requires Verified(map[id := dir], id).Some? && LoadManifest(dir).value.snapshotId == id
    requires Candidates(map[id := dir], scope) == {id}
    ensures var completed := map[id := dir, copy := dir];
            && Candidates(completed, scope) == {id, copy}
            && (forall dirs: seq<string>, candidates: seq<Summary> :: Collected(completed, scope, dirs, candidates) ==>
                  |candidates| == 2 && candidates[0].snapshotId == candidates[1].snapshotId == id)
            && Candidates(completed - {id}, scope) == {}
  {
    var completed := map[id := dir, copy := dir];
    assert id in Candidates(map[id := dir], scope);
    assert InScope(completed, scope, id) && InScope(completed, scope, copy);
    forall dirs: seq<string>, candidates: seq<Summary> | Collected(completed, scope, dirs, candidates)
      ensures |candidates| == 2 && candidates[0].snapshotId == candidates[1].snapshotId == id
    {
      CopiesCollected(completed, scope, dirs, candidates, id, copy);
    }
  }

  lemma CopiesCollected(completed: Snapshots, scope: string, dirs: seq<string>, candidates: seq<Summary>,
                        id: string, copy: string)
    requires Collected(completed, scope, dirs, candidates) && id != copy
    requires Candidates(completed, scope) == {id, copy}
    requires SummaryAt(completed, id).snapshotId == SummaryAt(completed, copy).snapshotId == id
    ensures |candidates| == 2 && candidates[0].snapshotId == candidates[1].snapshotId == id
  {
    assert forall dir :: dir in dirs <==> dir == id || dir == copy;
    TwoOf(dirs, id, copy);
    assert candidates[0] == SummaryAt(completed, dirs[0]) && candidates[1] == SummaryAt(completed, dirs[1]);
  }

  lemma TwoOf<T>(s: seq<T>, a: T, b: T)
    requires Distinct(s) && a != b && forall x :: x in s <==> x == a || x == b
    ensures |s| == 2 && (s[0] == a || s[0] == b) && (s[1] == a || s[1] == b)
  {
    assert a in s && b in s;
    var i :| 0 <= i < |s| && s[i] == a;
    var j :| 0 <= j < |s| && s[j] == b;
    assert forall k :: 0 <= k < |s| ==> s[k] in s;
    DistinctLength(s, {a, b});
  }

  /** Planning again right after a successful application removes nothing. */
  lemma ReplanRemovesNothing(completed: Snapshots, scope: string, aged: seq<Summary>, keepLast: nat,
                             again: seq<Summary>)
    requires Named(completed) && Aged(completed, scope, aged) && keepLast >= 1
    requires Aged(completed - Ids(aged[..Excess(aged, keepLast)]), scope, again)
    ensures Excess(again, keepLast) == 0
  {
    KeepsNewest(completed, scope, aged, keepLast, completed - Ids(aged[..Excess(aged, keepLast)]));
    IdsCounted(again);
  }

  /** Manual, other-scope and corrupt snapshots are never candidates. */
  lemma OthersAreNoCandidates(completed: Snapshots, scope: string, id: string)
    requires Named(completed) && id in completed
    requires LoadManifest(completed[id]).None? || Verified(completed, id).None?
             || LoadManifest(completed[id]).value.maintenance.None?
             || LoadManifest(completed[id]).value.maintenance.value.scope != scope
    ensures id !in Candidates(completed, scope)
  {
  }
}
