/** What both schedulers share. */
module Reconcile {
  // `internal/maintenance/launchd.go`, `internal/maintenance/systemd.go`: a set of desired artifacts is reconciled with
  // a directory that also holds other people's files.

  import opened Text
  import opened Ordering

  /** A directory entry as `safeReadArtifact` sees it. */
  datatype Artifact<T> = Regular(contents: T) | Irregular

  type Files<T> = map<string, Artifact<T>>

  type Desired<T> = map<string, T>

  /** In the order of the action names: install, remove, update. */
  datatype Action = Install | Remove | Update

  datatype Change = Change(action: Action, unit: string)

  function Rank(action: Action): int {
    match action
    case Install => 0
    case Remove => 1
    case Update => 2
  }

  ghost function ToWrite<T>(files: Files<T>, desired: Desired<T>): set<Change> {
    set name | name in desired && (name !in files || files[name] != Regular(desired[name])) ::
      Change(if name in files then Update else Install, name)
  }

  ghost function ToRemove<T>(desired: Desired<T>, owned: set<string>): set<Change> {
    set name | name in owned && name !in desired :: Change(Remove, name)
  }

  /** The changes that bring the directory to the desired artifacts. */
  ghost function ChangeSet<T>(files: Files<T>, desired: Desired<T>, owned: set<string>): set<Change> {
    ToWrite(files, desired) + ToRemove(desired, owned)
  }

  /** Those changes in the scheduler's order, each once. */
  ghost predicate Lists(changes: seq<Change>, set_: set<Change>, le: (Change, Change) -> bool) {
    SortedBy(le, changes) && Distinct(changes) && forall c :: c in changes <==> c in set_
  }

  /** A desired name is taken by something that is not a regular file. */
  ghost predicate Blocked<T>(files: Files<T>, desired: Desired<T>) {
    exists name :: name in desired && name in files && files[name].Irregular?
  }

  /** `changes`: map iteration visits names in any order; the sort makes up for it. */
  method Changes<T(==)>(files: Files<T>, desired: Desired<T>, owned: set<string>, le: (Change, Change) -> bool)
    returns (changes: Option<seq<Change>>)
    requires TotalPreorder(le)
    ensures changes.Some? <==> !Blocked(files, desired)
    ensures changes.Some? ==> Lists(changes.value, ChangeSet(files, desired, owned), le)
  {
    var found: seq<Change> := [];
    var stale := owned;
    var todo := desired.Keys;
    while todo != {}
      invariant todo <= desired.Keys && stale == owned - (desired.Keys - todo)
      invariant Distinct(found) && forall c :: c in found <==> c in ToWrite(files, desired) && c.unit !in todo
      invariant forall name :: name in desired && name !in todo && name in files ==> files[name].Regular?
      decreases todo
    {
      var name :| name in todo;
      if name !in files {
        found := found + [Change(Install, name)];
      } else if files[name].Irregular? {
        return None;
      } else if files[name].contents != desired[name] {
        found := found + [Change(Update, name)];
      }
      stale := stale - {name};
      todo := todo - {name};
    }
    found := AppendRemovals(found, stale);
    var sorted := SortBy(found, le);
    SortedChanges(found, sorted);
    assert stale == owned - desired.Keys;
    changes := Some(sorted);
  }

  method AppendRemovals(found0: seq<Change>, stale0: set<string>) returns (found: seq<Change>)
    requires Distinct(found0) && forall c :: c in found0 ==> !c.action.Remove?
    ensures Distinct(found)
    ensures forall c :: c in found <==> c in found0 || (c.action.Remove? && c.unit in stale0)
  {
    found := found0;
    var stale := stale0;
    while stale != {}
      invariant stale <= stale0 && Distinct(found)
      invariant forall c :: c in found <==> c in found0 || (c.action.Remove? && c.unit in stale0 - stale)
      decreases stale
    {
      var name :| name in stale;
      assert Change(Remove, name) !in found;
      found := found + [Change(Remove, name)];
      stale := stale - {name};
    }
  }

  lemma SortedChanges(found: seq<Change>, sorted: seq<Change>)
    requires Distinct(found) && multiset(sorted) == multiset(found)
    ensures Distinct(sorted) && forall c :: c in sorted <==> c in found
  {
    SameElements(found, sorted);
    forall i, j | 0 <= i < j < |sorted|
      ensures sorted[i] != sorted[j]
    {
      OnceEach(found, sorted[i]);
      assert sorted == sorted[..j] + [sorted[j]] + sorted[j + 1..];
      assert sorted[i] in sorted[..j];
    }
  }

  /** The list of changes does not depend on the order in which names were visited. */
  lemma ChangesAreDetermined(a: seq<Change>, b: seq<Change>, set_: set<Change>, le: (Change, Change) -> bool)
    requires TotalPreorder(le) && (forall x: Change, y: Change :: le(x, y) && le(y, x) ==> x == y)
    requires Lists(a, set_, le) && Lists(b, set_, le)
    ensures a == b
  {
    forall c
      ensures multiset(a)[c] == multiset(b)[c]
    {
      OnceEach(a, c);
      OnceEach(b, c);
      assert c in multiset(a) <==> c in a;
      assert c in multiset(b) <==> c in b;
    }
    assert multiset(a) == multiset(b);
    SortUnique(le, a, b);
  }

  // ---- the reconciled directory

  function Contents<T>(desired: Desired<T>): Files<T> {
    map name | name in desired :: Regular(desired[name])
  }

  /** Desired artifacts as desired, owned leftovers gone, everything else as it was. */
  function Reconciled<T>(files: Files<T>, desired: Desired<T>, owned: set<string>): Files<T> {
    (files - (owned - desired.Keys)) + Contents(desired)
  }

  ghost function RemovedNames(changes: seq<Change>): set<string> {
    set c | c in changes && c.action.Remove? :: c.unit
  }

  ghost function WrittenNames(changes: seq<Change>): set<string> {
    set c | c in changes && !c.action.Remove? :: c.unit
  }

  lemma OneMoreChange(changes: seq<Change>, i: nat)
    requires i < |changes|
    ensures RemovedNames(changes[..i + 1]) ==
            RemovedNames(changes[..i]) + if changes[i].action.Remove? then {changes[i].unit} else {}
    ensures WrittenNames(changes[..i + 1]) ==
            WrittenNames(changes[..i]) + if changes[i].action.Remove? then {} else {changes[i].unit}
  {
    assert changes[..i + 1] == changes[..i] + [changes[i]];
  }

  /** The directory after some of the desired artifacts have been written. */
  ghost predicate Patched<T>(before: Files<T>, desired: Desired<T>, written: set<string>, after: Files<T>) {
    && after.Keys == before.Keys + written
    && forall name :: name in after ==>
         if name in written then name in desired && after[name] == Regular(desired[name])
         else name in before && after[name] == before[name]
  }

  lemma ChangedNames<T>(files: Files<T>, desired: Desired<T>, owned: set<string>, changes: seq<Change>)
    requires forall c :: c in changes <==> c in ChangeSet(files, desired, owned)
    ensures RemovedNames(changes) == owned - desired.Keys
    ensures WrittenNames(changes) ==
            set name | name in desired && (name !in files || files[name] != Regular(desired[name]))
  {
    forall name
      ensures name in RemovedNames(changes) <==> name in owned - desired.Keys
    {
      if name in owned - desired.Keys {
        assert Change(Remove, name) in changes;
      }
    }
    forall name | name in desired && (name !in files || files[name] != Regular(desired[name]))
      ensures name in WrittenNames(changes)
    {
      assert Change(if name in files then Update else Install, name) in changes;
    }
  }

  /** Removing the listed artifacts and writing the changed ones reconciles the directory. */
  lemma ChangesReconcile<T>(files: Files<T>, desired: Desired<T>, owned: set<string>, changes: seq<Change>,
                            after: Files<T>)
    requires forall c :: c in changes <==> c in ChangeSet(files, desired, owned)
    requires Patched(files - RemovedNames(changes), desired, WrittenNames(changes), after)
    ensures after == Reconciled(files, desired, owned)
  {
    ChangedNames(files, desired, owned, changes);
  }

  /** Writing every desired artifact and then removing the listed ones reconciles it as well. */
  lemma WritingAllReconciles<T>(files: Files<T>, desired: Desired<T>, owned: set<string>, changes: seq<Change>,
                                after: Files<T>)
    requires forall c :: c in changes <==> c in ChangeSet(files, desired, owned)
    requires Patched(files, desired, desired.Keys, after)
    ensures after - RemovedNames(changes) == Reconciled(files, desired, owned)
  {
    ChangedNames(files, desired, owned, changes);
  }

  /** When ownership goes by name and contents, what is owned afterwards is exactly what is desired. */
  lemma OwnedAfterwards<T>(files: Files<T>, desired: Desired<T>, owned: set<string>, ownedAfter: set<string>)
    requires desired.Keys <= ownedAfter <= Reconciled(files, desired, owned).Keys
    requires forall name :: name in ownedAfter && name !in desired && name in files ==> name in owned
    ensures ownedAfter == desired.Keys
  {
  }

  /** Taking the desired artifacts away again leaves the files that were never owned or desired. */
  lemma DesiredTakenAway<T>(files: Files<T>, desired: Desired<T>, owned: set<string>)
    ensures Reconciled(files, desired, owned) - desired.Keys == files - owned - desired.Keys
  {
  }

  /** Once reconciled, nothing is left to change as long as nothing undesired is owned. */
  lemma NothingLeft<T>(files: Files<T>, desired: Desired<T>, owned: set<string>, ownedAfter: set<string>)
    requires ownedAfter <= desired.Keys
    ensures ChangeSet(Reconciled(files, desired, owned), desired, ownedAfter) == {}
  {
  }
}
