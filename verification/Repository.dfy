/** `internal/backup/repository.go`: a snapshot is staged, completed once, listed, verified and deleted. */
module Repository {
  import opened Text
  import opened Snapshot
  import Archive
  import Keyed
  import opened Ordering
  import Paths

  datatype ArchiveFault = NoArchiveFault | CannotOpen | Breaks(partial: Content) | CannotSync

  datatype CompleteFault =
    | NoCompleteFault
    | CannotWrite(partial: Content)
    | CannotProtectFiles
    | CannotRename
    | CannotProtect(movedBack: bool)

  datatype DeleteFault = NoDeleteFault | CannotPrepare | RemovedPartly(left: set<string>)

  datatype Summary = Summary(
    snapshotId: string, createdAt: int, target: string, services: seq<string>, storedSize: int, digest: Sum)

  type Snapshots = map<string, Dir>

  // ---- what a snapshots directory shows

  /** `Repository.Verify`: the manifest of a snapshot whose directory corresponds to it. */
  ghost function Verified(completed: Snapshots, id: string): Option<Manifest> {
    if ValidSnapshotId(id) && id in completed && LoadManifest(completed[id]).Some?
       && Verifies(completed[id], LoadManifest(completed[id]).value)
    then LoadManifest(completed[id]) else None
  }

  predicate Listed(completed: Snapshots, id: string) {
    id in completed && ValidSnapshotId(id) && LoadManifest(completed[id]).Some?
  }

  function SummaryOf(completed: Snapshots, id: string): Summary
    requires Listed(completed, id)
  {
    Summarize(LoadManifest(completed[id]).value)
  }

  ghost function ListedIds(completed: Snapshots): set<string> {
    set id | id in completed && Listed(completed, id)
  }

  ghost function Summaries(completed: Snapshots, ids: set<string>): set<Summary> {
    set id | id in ids && Listed(completed, id) :: SummaryOf(completed, id)
  }

  /** Kept by every operation: a snapshot's directory carries the identifier its manifest states. */
  ghost predicate Named(completed: Snapshots) {
    forall id :: Listed(completed, id) ==> LoadManifest(completed[id]).value.snapshotId == id
  }

  function SumStored(rs: seq<ResourceManifest>): int {
    if rs == [] then 0 else SumStored(rs[..|rs| - 1]) + rs[|rs| - 1].storedSize
  }

  function Summarize(m: Manifest): Summary {
    Summary(m.snapshotId, m.createdAt, m.target,
            seq(|m.services|, i requires 0 <= i < |m.services| => m.services[i].name),
            SumStored(Resources(m)), m.digest)
  }

  function SealManifest(m: Manifest): Manifest {
    m.(digest := ManifestDigest(m))
  }

  function WithManifest(dir: Dir, m: Manifest): Dir {
    dir[MANIFEST := File(Encoded(m))]
  }

  predicate Clashes(name: string, node: Node, path: string) {
    (!node.Folder? && Paths.HasPrefix(path, name + "/")) || Paths.HasPrefix(name, path + "/")
  }

  /** Creating `path` exclusively fails: it exists, a parent of it is a file, or it is a parent itself. */
  predicate Blocked(dir: Dir, path: string) {
    path in dir || exists name :: name in dir && Clashes(name, dir[name], path)
  }

  /** Nothing stands where the manifest goes: no folder or link of its name, and nothing below it. */
  predicate ManifestWritable(dir: Dir) {
    (MANIFEST in dir ==> dir[MANIFEST].File?) && forall name :: name in dir ==> !Paths.HasPrefix(name, MANIFEST + "/")
  }

  predicate ServicesOrdered(services: seq<ServiceManifest>) {
    forall i, j :: 0 <= i < j < |services| ==> Less(services[i].name, services[j].name)
  }

  function ResourceOrder(): (ResourceManifest, ResourceManifest) -> bool {
    (x: ResourceManifest, y: ResourceManifest) => AtMost(x.name, y.name)
  }

  function ServiceOrder(): (ServiceManifest, ServiceManifest) -> bool {
    (x: ServiceManifest, y: ServiceManifest) => AtMost(x.name, y.name)
  }

  function SummaryOrder(): (Summary, Summary) -> bool {
    (x: Summary, y: Summary) => AtMost(x.snapshotId, y.snapshotId)
  }

  lemma NameOrders()
    ensures TotalPreorder(ResourceOrder()) && TotalPreorder(ServiceOrder()) && TotalPreorder(SummaryOrder())
  {
    NamesOrdered(ResourceOrder(), (x: ResourceManifest) => x.name);
    NamesOrdered(ServiceOrder(), (x: ServiceManifest) => x.name);
    NamesOrdered(SummaryOrder(), (x: Summary) => x.snapshotId);
  }

  lemma NamesOrdered<T(!new)>(le: (T, T) -> bool, name: T -> string)
    requires forall x, y :: le(x, y) <==> AtMost(name(x), name(y))
    ensures TotalPreorder(le)
  {
    forall x, y
      ensures le(x, y) || le(y, x)
    {
      LessTotal(name(x), name(y));
    }
    forall x, y, z | le(x, y) && le(y, z)
      ensures le(x, z)
    {
      AtMostTransitive(name(x), name(y), name(z));
    }
  }

  method Loadable(completed: Snapshots) returns (result: seq<Summary>)
    ensures forall s :: s in result <==> s in Summaries(completed, ListedIds(completed))
    ensures |result| == |ListedIds(completed)|
  {
    result := [];
    var todo := completed.Keys;
    ghost var done: set<string> := {};
    while todo != {}
      invariant todo <= completed.Keys && done !! todo && done <= ListedIds(completed) <= done + todo
      invariant |result| == |done|
      invariant forall s :: s in result <==> s in Summaries(completed, done)
      decreases todo
    {
      var id :| id in todo;
      todo := todo - {id};
      if Listed(completed, id) {
        OneMoreSummary(completed, done, id);
        done := done + {id};
        result := result + [SummaryOf(completed, id)];
      }
    }
    assert done == ListedIds(completed);
  }

  lemma OneMoreSummary(completed: Snapshots, done: set<string>, id: string)
    requires Listed(completed, id)
    ensures Summaries(completed, done + {id}) == Summaries(completed, done) + {SummaryOf(completed, id)}
  {
  }

  class Repository {
    var staging: Snapshots
    var completed: Snapshots

    constructor (staging: Snapshots, completed: Snapshots)
      ensures this.staging == staging && this.completed == completed
    {
      this.staging := staging;
      this.completed := completed;
    }

    /** A new identifier gets an empty staging directory; nothing becomes visible. */
    method Begin(id: string, version: string, target: string, now: int, fault: bool) returns (stage: Option<Stage>)
      modifies `staging
      ensures stage.Some? <==> !fault && id !in old(staging)
      ensures stage.None? ==> staging == old(staging)
      ensures stage.Some? ==>
                && fresh(stage.value) && stage.value.Valid() && !stage.value.closed
                && stage.value.repository == this && stage.value.id == id && staging == old(staging)[id := map[]]
                && stage.value.manifest == Manifest(1, version, id, now, target, [], None, NoSum)
    {
      if fault || id in staging {
        return None;
      }
      staging := staging[id := map[]];
      var s := new Stage(this, id, Manifest(1, version, id, now, target, [], None, NoSum));
      return Some(s);
    }

    /** The loadable snapshots, each once, ordered by identifier. */
    method List() returns (result: seq<Summary>)
      ensures SortedBy(SummaryOrder(), result)
      ensures forall s :: s in result <==> s in Summaries(completed, ListedIds(completed))
      ensures |result| == |ListedIds(completed)|
    {
      result := Loadable(completed);
      NameOrders();
      ghost var unsorted := result;
      result := SortBy(result, SummaryOrder());
      SameElements(unsorted, result);
    }

    method Verify(id: string) returns (m: Option<Manifest>)
      ensures m == Verified(completed, id)
    {
      var valid := IsSnapshotId(id);
      if !valid || id !in completed {
        return None;
      }
      m := LoadManifest(completed[id]);
      if m.Some? {
        var ok := VerifyPath(completed[id], m.value);
        if !ok {
          return None;
        }
      }
    }

    /** Only a snapshot that verifies is removed; every other directory is left alone. */
    method Delete(id: string, fault: DeleteFault) returns (ok: bool)
      modifies `completed
      ensures ok <==> Verified(old(completed), id).Some? && fault.NoDeleteFault?
      ensures Step(old(completed), completed, Erased(id, fault))
    {
      var m := Verify(id);
      if m.None? || fault.CannotPrepare? {
        return false;
      }
      if fault.RemovedPartly? {
        completed := completed[id := Remaining(completed[id], fault.left)];
        return false;
      }
      completed := completed - {id};
      return true;
    }
  }

  class Stage {
    const repository: Repository
    const id: string
    var manifest: Manifest
    var closed: bool

    ghost predicate Valid()
      reads this
    {
      manifest.snapshotId == id && ServicesOrdered(manifest.services)
    }

    function Files(): Dir
      reads repository
    {
      if id in repository.staging then repository.staging[id] else map[]
    }

    constructor (repository: Repository, id: string, manifest: Manifest)
      ensures this.repository == repository && this.id == id && this.manifest == manifest && !closed
    {
      this.repository := repository;
      this.id := id;
      this.manifest := manifest;
      this.closed := false;
    }

    /** Records provenance; a provenance that does not validate is reported, but stays recorded. */
    method SetMaintenance(value: Option<Provenance>) returns (ok: bool)
      requires Valid()
      modifies `manifest
      ensures Valid()
      ensures ok <==> !closed && (value.Some? ==> ValidManifest(manifest))
      ensures manifest == if closed then old(manifest) else old(manifest).(maintenance := value)
    {
      if closed {
        return false;
      }
      manifest := manifest.(maintenance := value);
      if value.None? {
        return true;
      }
      ok := CheckManifest(manifest);
    }

    /** A service is added once, its resources sorted, and the services stay strictly ordered by name. */
    method AddService(service: ServiceManifest) returns (ok: bool, ghost added: ServiceManifest)
      requires Valid()
      modifies `manifest
      ensures Valid()
      ensures ok <==>
                && !closed && service.name != "" && !service.consistency.NoConsistency? && service.resources != []
                && forall i :: 0 <= i < |old(manifest).services| ==> old(manifest).services[i].name != service.name
      ensures !ok ==> manifest == old(manifest)
      ensures ok ==>
                && added == service.(resources := added.resources)
                && SortOf(ResourceOrder(), service.resources, added.resources)
                && multiset(manifest.services) == multiset(old(manifest).services) + multiset{added}
                && manifest == old(manifest).(services := manifest.services)
    {
      ok, added := false, service;
      if closed || service.name == "" || service.consistency.NoConsistency? || service.resources == [] {
        return;
      }
      for i := 0 to |manifest.services|
        invariant forall j :: 0 <= j < i ==> manifest.services[j].name != service.name
      {
        if manifest.services[i].name == service.name {
          return;
        }
      }
      NameOrders();
      var resources := SortBy(service.resources, ResourceOrder());
      var entry := service.(resources := resources);
      var services := SortBy(manifest.services + [entry], ServiceOrder());
      DistinctSortIsStrict(manifest.services, entry, services);
      manifest := manifest.(services := services);
      ok, added := true, entry;
    }

    /** Streams one archive into the stage: sanitized, under a fresh safe path, and described as it was stored. */
    method WriteArchive(relative: string, input: Archive.Stream, alive: nat -> bool, bytes: nat, fault: ArchiveFault)
      returns (r: Option<ResourceManifest>)
      modifies repository`staging
      ensures r.Some? <==>
                && !closed && SafeArchivePath(relative).Some? && fault.NoArchiveFault?
                && !Blocked(old(Files()), SafeArchivePath(relative).value)
                && Archive.Accepts(input) && forall k: nat :: k <= |input.entries| ==> alive(k)
      ensures r.Some? ==>
                && SafeArchivePath(relative) == Some(r.value.archive) && r.value.name == "" && r.value.typ.UnknownType?
                && Describes(r.value, Files())
                && repository.staging == old(repository.staging)[id := Files()]
                && Files() == old(Files())[r.value.archive := Files()[r.value.archive]]
                && HoldsEach(Files(), r.value.archive, input)
      ensures r.None? && repository.staging != old(repository.staging) ==>
                && !closed && SafeArchivePath(relative).Some?
                && !Blocked(old(Files()), SafeArchivePath(relative).value)
                && repository.staging == old(repository.staging)[id := Files()]
                && SafeArchivePath(relative).value in Files()
                && Files() == old(Files())[SafeArchivePath(relative).value := Files()[SafeArchivePath(relative).value]]
    {
      if closed {
        return None;
      }
      var path := SafeArchivePath(relative);
      if path.None? || Blocked(Files(), path.value) || fault.CannotOpen? {
        return None;
      }
      var writes := (k: nat) => !fault.Breaks?;
      var ok, output := Archive.RewriteArchive(input, alive, writes);
      assert writes(0) <==> !fault.Breaks?;
      var content := Tar(Archive.Stream(output, true), bytes);
      if !ok {
        var partial := if fault.Breaks? then fault.partial else content;
        repository.staging := repository.staging[id := Files()[path.value := File(partial)]];
        return None;
      }
      Archive.RewriteIsIdempotent(input);
      repository.staging := repository.staging[id := Files()[path.value := File(content)]];
      if fault.CannotSync? {
        return None;
      }
      return Some(ResourceManifest("", UnknownType, path.value, bytes, bytes, OfContent(content)));
    }

    /** Closes the stage; the snapshot is published exactly when its directory verifies and nothing fails. */
    method Complete(fault: CompleteFault) returns (m: Option<Manifest>)
      requires Valid()
      modifies this, repository
      ensures closed
      ensures m.Some? <==>
                && !old(closed) && fault.NoCompleteFault?
                && Publishable(old(repository.completed), old(repository.staging), id, old(manifest))
      ensures old(closed) ==> repository.staging == old(repository.staging)
      ensures m.Some? ==> m.value == SealManifest(old(manifest)) && repository.staging == old(repository.staging) - {id}
      ensures repository.staging - {id} == old(repository.staging) - {id}
      ensures Step(old(repository.completed), repository.completed,
                   if old(closed) || !Publishable(old(repository.completed), old(repository.staging), id, old(manifest))
                   then Nothing
                   else PublishEffect(id, WithManifest(old(Files()), SealManifest(old(manifest))), fault))
    {
      if closed {
        return None;
      }
      closed := true;
      var valid := CheckManifest(manifest);
      if manifest.services == [] || !valid {
        return None;
      }
      manifest := SealManifest(manifest);
      if id !in repository.staging || !ManifestWritable(repository.staging[id]) {
        return None;
      }
      if fault.CannotWrite? {
        repository.staging := repository.staging[id := repository.staging[id][MANIFEST := File(fault.partial)]];
        return None;
      }
      var dir := WithManifest(repository.staging[id], manifest);
      repository.staging := repository.staging[id := dir];
      var verified := VerifyPath(dir, manifest);
      if !verified {
        return None;
      }
      var published := Publish(dir, fault);
      return if published then Some(manifest) else None;
    }

    /** The last steps: protect the files, rename into the completed namespace, protect the directories. */
    method Publish(dir: Dir, fault: CompleteFault) returns (ok: bool)
      requires !fault.CannotWrite? && id in repository.staging && repository.staging[id] == dir
      requires LoadManifest(dir).Some? && LoadManifest(dir).value.snapshotId == id
               && Verifies(dir, LoadManifest(dir).value)
      modifies repository
      ensures ok <==>
                fault.NoCompleteFault? && (id in old(repository.completed) ==> old(repository.completed)[id] == map[])
      ensures ok ==> repository.staging == old(repository.staging) - {id}
      ensures repository.staging - {id} == old(repository.staging) - {id}
      ensures Step(old(repository.completed), repository.completed,
                   if id in old(repository.completed) && old(repository.completed)[id] != map[] then Nothing
                   else PublishEffect(id, dir, fault))
    {
      if fault.CannotProtectFiles? || fault.CannotRename?
        || (id in repository.completed && repository.completed[id] != map[]) {
        return false;
      }
      repository.staging := repository.staging - {id};
      repository.completed := repository.completed[id := dir];
      if fault.CannotProtect? {
        if fault.movedBack {
          repository.completed := repository.completed - {id};
          repository.staging := repository.staging[id := dir];
        }
        return false;
      }
      return true;
    }

    /** Closes the stage and removes its directory, or leaves some of it behind. */
    method Abort(leftover: Option<Dir>)
      modifies `closed, repository`staging
      ensures closed
      ensures repository.staging ==
              if leftover.None? || id !in old(repository.staging) then old(repository.staging) - {id}
              else old(repository.staging)[id := leftover.value]
    {
      closed := true;
      if leftover.None? || id !in repository.staging {
        repository.staging := repository.staging - {id};
      } else {
        repository.staging := repository.staging[id := leftover.value];
      }
    }
  }

  lemma DistinctSortIsStrict(services: seq<ServiceManifest>, entry: ServiceManifest, sorted: seq<ServiceManifest>)
    requires ServicesOrdered(services) && SortOf(ServiceOrder(), services + [entry], sorted)
    requires forall i :: 0 <= i < |services| ==> services[i].name != entry.name
    ensures ServicesOrdered(sorted)
  {
    var all := services + [entry];
    forall i, j | 0 <= i < j < |all|
      ensures all[i].name != all[j].name
    {
      if j < |services| {
        LessAsymmetric(services[i].name, services[j].name);
      }
    }
    Rearranged(all, sorted);
    forall i, j | 0 <= i < j < |sorted|
      ensures Less(sorted[i].name, sorted[j].name)
    {
      assert ServiceOrder()(sorted[i], sorted[j]);
      assert sorted[i].name != sorted[j].name;
    }
  }

  lemma Rearranged(all: seq<ServiceManifest>, sorted: seq<ServiceManifest>)
    requires multiset(all) == multiset(sorted)
    requires forall i, j :: 0 <= i < j < |all| ==> all[i].name != all[j].name
    ensures forall i, j :: 0 <= i < j < |sorted| ==> sorted[i].name != sorted[j].name
  {
    Keyed.DistinctKeysRearranged(all, sorted, (s: ServiceManifest) => s.name);
    var key := (s: ServiceManifest) => s.name;
    assert forall i, j :: 0 <= i < j < |sorted| ==> key(sorted[i]) != key(sorted[j]);
  }

  /** The description returned for an archive matches the file just stored. */
  ghost predicate Describes(r: ResourceManifest, dir: Dir) {
    r.archive in dir && dir[r.archive].File? && Matches(dir[r.archive].content, r)
  }

  /** The stored file is a tar stream of the input's entries, each with what it keeps. */
  ghost predicate HoldsEach(dir: Dir, archive: string, input: Archive.Stream) {
    && archive in dir && dir[archive].File? && dir[archive].content.Tar?
    && var output := dir[archive].content.stream;
       output.wellEnded && |output.entries| == |input.entries| && Archive.KeepsEach(input.entries, output.entries)
  }

  // ---- what a directory tree can take

  /** Whatever lies below an entry lies in a folder. */
  ghost predicate Tree(dir: Dir) {
    forall a, b :: a in dir && b in dir && Paths.HasPrefix(b, a + "/") ==> dir[a].Folder?
  }

  /** A free path is refused exactly when a file there would not fit into the tree. */
  lemma BlockedMeansUnfit(dir: Dir, path: string, content: Content)
    requires Tree(dir) && path !in dir
    ensures Blocked(dir, path) <==> !Tree(dir[path := File(content)])
  {
    var after := dir[path := File(content)];
    assert !Paths.HasPrefix(path, path + "/");
    if Blocked(dir, path) {
      var name :| name in dir && Clashes(name, dir[name], path);
      assert name in after && path in after;
    }
  }

  /** The manifest can be written exactly when its name is free or a file, and a file there fits into the tree. */
  lemma WritableMeansFit(dir: Dir, content: Content)
    requires Tree(dir)
    ensures ManifestWritable(dir) <==>
            (MANIFEST in dir ==> dir[MANIFEST].File?) && Tree(dir[MANIFEST := File(content)])
  {
    var after := dir[MANIFEST := File(content)];
    forall name | name in dir
      ensures !Paths.HasPrefix(MANIFEST, name + "/")
    {
      NoSlash(name);
    }
    if (MANIFEST in dir ==> dir[MANIFEST].File?) && Tree(after) {
      forall name | name in dir
        ensures !Paths.HasPrefix(name, MANIFEST + "/")
      {
        assert name in after && MANIFEST in after;
      }
    }
  }

  lemma NoSlash(name: string)
    ensures !Paths.HasPrefix(MANIFEST, name + "/")
  {
    assert forall i :: 0 <= i < |MANIFEST| ==> MANIFEST[i] != '/';
    assert (name + "/")[|name|] == '/';
  }

  // ---- the completed namespace, over whole runs

  /** What an operation may do to the completed snapshots. */
  datatype Effect =
    | Nothing
    | Published(id: string, dir: Dir)
    | Withdrawn(id: string)
    | Erased(id: string, fault: DeleteFault)

  function Remaining(dir: Dir, left: set<string>): Dir {
    map name | name in dir && name in left :: dir[name]
  }

  /** A failure to protect the published directory moves it back, or, failing that too, leaves it published. */
  function PublishEffect(id: string, dir: Dir, fault: CompleteFault): Effect {
    match fault
    case NoCompleteFault => Published(id, dir)
    case CannotProtect(movedBack) => if movedBack then Withdrawn(id) else Published(id, dir)
    case _ => Nothing
  }

  /** The stage's directory can take its sealed manifest, would then verify, and would take a free name. */
  ghost predicate Publishable(completed: Snapshots, staging: Snapshots, id: string, m: Manifest) {
    && m.services != [] && id in staging && ManifestWritable(staging[id])
    && Verifies(WithManifest(staging[id], SealManifest(m)), SealManifest(m))
    && (id in completed ==> completed[id] == map[])
  }

  ghost predicate Step(before: Snapshots, after: Snapshots, effect: Effect) {
    match effect
    case Nothing => after == before
    case Published(id, dir) =>
      && (id in before ==> before[id] == map[]) && after == before[id := dir]
      && LoadManifest(dir).Some? && LoadManifest(dir).value.snapshotId == id && Verifies(dir, LoadManifest(dir).value)
    case Withdrawn(id) => (id in before ==> before[id] == map[]) && after == before - {id}
    case Erased(id, fault) =>
      if Verified(before, id).None? || fault.CannotPrepare? then after == before
      else if fault.RemovedPartly? then after == before[id := Remaining(before[id], fault.left)]
      else after == before - {id}
  }

  ghost predicate Run(states: seq<Snapshots>, effects: seq<Effect>) {
    |states| == |effects| + 1 && forall i :: 0 <= i < |effects| ==> Step(states[i], states[i + 1], effects[i])
  }

  ghost predicate Erases(effect: Effect, id: string) {
    effect.Erased? && effect.id == id
  }

  lemma StepKeepsNamed(before: Snapshots, after: Snapshots, effect: Effect)
    requires Named(before) && Step(before, after, effect)
    ensures Named(after)
  {
  }

  /** Over any run, a snapshot that verifies goes on verifying, as the same manifest, until it is deleted. */
  lemma {:induction false} VerifiesUntilDeleted(states: seq<Snapshots>, effects: seq<Effect>, id: string, i: nat,
                                                j: nat)
    requires Run(states, effects) && i <= j < |states|
    requires Verified(states[i], id).Some?
    requires forall k :: i <= k < j ==> !Erases(effects[k], id)
    ensures Verified(states[j], id) == Verified(states[i], id)
    decreases j - i
  {
    if i < j {
      VerifiesUntilDeleted(states, effects, id, i + 1, j);
    }
  }

  /** Over any run, directory names keep matching manifests, and what is listed was listed before or was published. */
  lemma {:induction false} OnlyCompletedIsListed(states: seq<Snapshots>, effects: seq<Effect>, j: nat)
    requires Run(states, effects) && j < |states| && Named(states[0])
    ensures Named(states[j])
    ensures forall id :: Listed(states[j], id) ==>
              Listed(states[0], id) || exists k :: 0 <= k < j && effects[k].Published? && effects[k].id == id
  {
    if j > 0 {
      OnlyCompletedIsListed(states, effects, j - 1);
      StepKeepsNamed(states[j - 1], states[j], effects[j - 1]);
    }
  }
}

