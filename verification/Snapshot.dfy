/** `internal/backup/repository.go`: manifests, and when a snapshot directory verifies against its manifest. */
module Snapshot {
  import opened Text
  import opened Paths
  import Archive

  const MANIFEST := "manifest.json"

  /** Hashes and encodings are taken to be injective: a sum stands for what was summed. */
  datatype Sum = NoSum | OfManifest(manifest: Manifest) | OfContent(content: Content)

  /** What a file holds: an encoded manifest, a tar stream, or anything else. */
  datatype Content = Encoded(manifest: Manifest) | Tar(stream: Archive.Stream, size: nat) | Other(tag: int, size: nat)

  datatype Node = File(content: Content) | Folder | Link | Special

  /** A directory tree by slash-separated relative path. */
  type Dir = map<string, Node>

  datatype ResourceType = Volume | Path | UnknownType

  datatype Consistency = StopFirst | Live | NoConsistency | OtherConsistency

  datatype ResourceManifest = ResourceManifest(
    name: string, typ: ResourceType, archive: string, uncompressedSize: int, storedSize: int, sha256: Sum)

  datatype ServiceManifest = ServiceManifest(
    name: string, configurationDigest: string, consistency: Consistency, resources: seq<ResourceManifest>)

  datatype Provenance = Provenance(job: string, scope: string, runId: string, jobFingerprint: string)

  datatype Manifest = Manifest(
    schemaVersion: int, bebopVersion: string, snapshotId: string, createdAt: int, target: string,
    services: seq<ServiceManifest>, maintenance: Option<Provenance>, digest: Sum)

  function Size(content: Content): nat {
    match content
    case Encoded(_) => 1
    case Tar(_, size) => size
    case Other(_, size) => size
  }

  predicate Hex(c: char) { Digit(c) || 'a' <= c <= 'f' }

  /** A timestamp, a hyphen, and twelve hexadecimal digits. */
  predicate ValidSnapshotId(value: string) {
    && |value| == 29 && value[8] == 'T' && value[15] == 'Z' && value[16] == '-'
    && (forall i :: 0 <= i < 15 && i != 8 ==> Digit(value[i]))
    && forall i :: 17 <= i < 29 ==> Hex(value[i])
  }

  predicate ValidIdentifier(value: string) {
    0 < |value| <= 128 && forall i :: 0 <= i < |value| ==> 'a' <= value[i] <= 'z' || Digit(value[i]) || value[i] == '-'
  }

  predicate ValidHex64(value: string) {
    |value| == 64 && forall i :: 0 <= i < 64 ==> Hex(value[i]) || 'A' <= value[i] <= 'F'
  }

  predicate ValidProvenance(p: Provenance) {
    ValidIdentifier(p.job) && ValidIdentifier(p.runId) && ValidHex64(p.scope) && ValidHex64(p.jobFingerprint)
  }

  function SafeArchivePath(value: string): Option<string> {
    if !Archive.Printable(value) || Clean(value) == "." || PointsUp(Clean(value)) then None else Some(Clean(value))
  }

  predicate ValidResource(r: ResourceManifest) {
    && r.name != "" && !r.typ.UnknownType? && r.storedSize >= 0 && r.uncompressedSize >= 0 && r.sha256.OfContent?
    && SafeArchivePath(r.archive).Some?
  }

  predicate ValidService(s: ServiceManifest) {
    && s.name != "" && (s.consistency.StopFirst? || s.consistency.Live?)
    && (forall i :: 0 <= i < |s.resources| ==> ValidResource(s.resources[i]))
    && forall i :: 0 < i < |s.resources| ==> Less(s.resources[i - 1].name, s.resources[i].name)
  }

  predicate ValidManifest(m: Manifest) {
    && m.schemaVersion == 1 && ValidSnapshotId(m.snapshotId) && m.createdAt != 0 && m.bebopVersion != ""
    && m.target != ""
    && (m.maintenance.Some? ==> ValidProvenance(m.maintenance.value))
    && (forall i :: 0 <= i < |m.services| ==> ValidService(m.services[i]))
    && forall i :: 0 < i < |m.services| ==> Less(m.services[i - 1].name, m.services[i].name)
  }

  function ManifestDigest(m: Manifest): Sum {
    OfManifest(m.(digest := NoSum))
  }

  predicate Sealed(m: Manifest) {
    m.digest == ManifestDigest(m)
  }

  // ---- the resources of a manifest, in order

  function ServiceResources(services: seq<ServiceManifest>): seq<ResourceManifest> {
    if services == [] then []
    else ServiceResources(services[..|services| - 1]) + services[|services| - 1].resources
  }

  function Resources(m: Manifest): seq<ResourceManifest> {
    ServiceResources(m.services)
  }

  ghost predicate DistinctArchives(rs: seq<ResourceManifest>) {
    forall i, j :: 0 <= i < j < |rs| ==> rs[i].archive != rs[j].archive
  }

  /** The stored file is the one the manifest describes, and itself an acceptable archive. */
  ghost predicate Matches(content: Content, r: ResourceManifest) {
    && Size(content) == r.storedSize && r.sha256 == OfContent(content)
    && content.Tar? && Archive.Accepts(content.stream)
  }

  /** A regular file other than the manifest. */
  predicate Stored(name: string, node: Node) {
    node.File? && name != MANIFEST
  }

  /** One entry of the walk: a folder, the manifest, or a stored file that some resource describes. */
  ghost predicate EntryFine(name: string, node: Node, rs: seq<ResourceManifest>) {
    && (node.File? || node.Folder?)
    && (Stored(name, node) ==> exists k :: 0 <= k < |rs| && rs[k].archive == name && Matches(node.content, rs[k]))
  }

  ghost function StoredNames(dir: Dir): set<string> {
    set name | name in dir && Stored(name, dir[name])
  }

  /**
   * What verification promises: stored files and manifest resources correspond one to one by path, each file being
   * the one described, and the directory holds nothing else but folders and the manifest.
   */
  ghost predicate Corresponds(dir: Dir, rs: seq<ResourceManifest>) {
    && DistinctArchives(rs)
    && (forall name :: name in dir ==> EntryFine(name, dir[name], rs))
    && forall k :: 0 <= k < |rs| ==> rs[k].archive in StoredNames(dir)
  }

  ghost predicate Verifies(dir: Dir, m: Manifest) {
    ValidManifest(m) && Sealed(m) && Corresponds(dir, Resources(m))
  }

  // ---- the validators

  /** `validSnapshotID`; a time of day is checked no further than its digits. */
  method IsSnapshotId(value: string) returns (ok: bool)
    ensures ok <==> ValidSnapshotId(value)
  {
    if |value| != 29 {
      return false;
    }
    for i := 0 to 16
      invariant forall k :: 0 <= k < i ==>
                  if k == 8 then value[k] == 'T' else if k == 15 then value[k] == 'Z' else Digit(value[k])
    {
      var c := value[i];
      if (i == 8 && c != 'T') || (i == 15 && c != 'Z') || (i != 8 && i != 15 && !('0' <= c <= '9')) {
        return false;
      }
    }
    for i := 17 to 29
      invariant forall k :: 17 <= k < i ==> Hex(value[k])
    {
      if !('0' <= value[i] <= '9' || 'a' <= value[i] <= 'f') {
        return false;
      }
    }
    return value[16] == '-';
  }

  /** `validMaintenanceIdentifier`. */
  method IsIdentifier(value: string) returns (ok: bool)
    ensures ok <==> ValidIdentifier(value)
  {
    if value == "" || |value| > 128 {
      return false;
    }
    for i := 0 to |value|
      invariant forall k :: 0 <= k < i ==> 'a' <= value[k] <= 'z' || Digit(value[k]) || value[k] == '-'
    {
      var c := value[i];
      if !('a' <= c <= 'z' || '0' <= c <= '9' || c == '-') {
        return false;
      }
    }
    return true;
  }

  /** 32 bytes in hexadecimal, in either case. */
  method IsHex64(value: string) returns (ok: bool)
    ensures ok <==> ValidHex64(value)
  {
    if |value| != 64 {
      return false;
    }
    for i := 0 to 64
      invariant forall k :: 0 <= k < i ==> Hex(value[k]) || 'A' <= value[k] <= 'F'
    {
      var c := value[i];
      if !('0' <= c <= '9' || 'a' <= c <= 'f' || 'A' <= c <= 'F') {
        return false;
      }
    }
    return true;
  }

  /** `validMaintenanceProvenance`. */
  method CheckProvenance(p: Provenance) returns (ok: bool)
    ensures ok <==> ValidProvenance(p)
  {
    var job := IsIdentifier(p.job);
    var run := IsIdentifier(p.runId);
    var scope := IsHex64(p.scope);
    var fingerprint := IsHex64(p.jobFingerprint);
    return job && run && scope && fingerprint;
  }

  method CheckResources(rs: seq<ResourceManifest>) returns (ok: bool)
    ensures ok <==> && (forall i :: 0 <= i < |rs| ==> ValidResource(rs[i]))
                    && forall i :: 0 < i < |rs| ==> Less(rs[i - 1].name, rs[i].name)
  {
    for i := 0 to |rs|
      invariant forall k :: 0 <= k < i ==> ValidResource(rs[k])
      invariant forall k :: 0 < k < i ==> Less(rs[k - 1].name, rs[k].name)
    {
      var r := rs[i];
      if r.name == "" || (i > 0 && !Less(rs[i - 1].name, r.name)) || !(r.typ.Volume? || r.typ.Path?)
        || r.storedSize < 0 || r.uncompressedSize < 0 || !r.sha256.OfContent? {
        return false;
      }
      if r.archive == "" || '\0' in r.archive || '\\' in r.archive || IsAbs(r.archive)
        || Clean(r.archive) == "." || Clean(r.archive) == ".." || HasPrefix(Clean(r.archive), "../") {
        assert !ValidResource(r);
        return false;
      }
      assert ValidResource(r);
    }
    return true;
  }

  method CheckServices(services: seq<ServiceManifest>) returns (ok: bool)
    ensures ok <==> && (forall i :: 0 <= i < |services| ==> ValidService(services[i]))
                    && forall i :: 0 < i < |services| ==> Less(services[i - 1].name, services[i].name)
  {
    for i := 0 to |services|
      invariant forall k :: 0 <= k < i ==> ValidService(services[k])
      invariant forall k :: 0 < k < i ==> Less(services[k - 1].name, services[k].name)
    {
      var s := services[i];
      if s.name == "" || (i > 0 && !Less(services[i - 1].name, s.name))
        || (!s.consistency.StopFirst? && !s.consistency.Live?) {
        return false;
      }
      var fine := CheckResources(s.resources);
      if !fine {
        assert !ValidService(services[i]);
        return false;
      }
    }
    return true;
  }

  /** `validateManifest`. */
  method CheckManifest(m: Manifest) returns (ok: bool)
    ensures ok <==> ValidManifest(m)
  {
    if m.schemaVersion != 1 {
      return false;
    }
    ok := IsSnapshotId(m.snapshotId);
    if !ok || m.createdAt == 0 || m.bebopVersion == "" || m.target == "" {
      return false;
    }
    if m.maintenance.Some? {
      ok := CheckProvenance(m.maintenance.value);
    }
    if ok {
      ok := CheckServices(m.services);
    }
  }

  // ---- the check itself

  ghost predicate ByArchive(rs: seq<ResourceManifest>, expected: map<string, ResourceManifest>) {
    && (forall k :: 0 <= k < |rs| ==> rs[k].archive in expected && expected[rs[k].archive] == rs[k])
    && forall a :: a in expected ==> exists k :: 0 <= k < |rs| && rs[k].archive == a
  }

  /** The manifest's resources by archive path; a repeated path is refused. */
  method ExpectedArchives(m: Manifest) returns (ok: bool, expected: map<string, ResourceManifest>)
    ensures ok <==> DistinctArchives(Resources(m))
    ensures ok ==> ByArchive(Resources(m), expected)
  {
    expected := map[];
    ok := true;
    for i := 0 to |m.services|
      invariant ok && DistinctArchives(ServiceResources(m.services[..i]))
      invariant ByArchive(ServiceResources(m.services[..i]), expected)
    {
      ServiceApart(m.services, i);
      ok, expected := AddArchives(m.services[i].resources, expected, ServiceResources(m.services[..i]));
      if !ok {
        ResourcesGrow(m.services, i + 1);
        return;
      }
    }
    assert m.services[..|m.services|] == m.services;
  }

  method AddArchives(resources: seq<ResourceManifest>, expected0: map<string, ResourceManifest>,
                     ghost rs: seq<ResourceManifest>)
    returns (ok: bool, expected: map<string, ResourceManifest>)
    requires DistinctArchives(rs) && ByArchive(rs, expected0)
    ensures ok <==> DistinctArchives(rs + resources)
    ensures ok ==> ByArchive(rs + resources, expected)
  {
    expected := expected0;
    ok := true;
    assert rs + resources[..0] == rs;
    for j := 0 to |resources|
      invariant ok && DistinctArchives(rs + resources[..j]) && ByArchive(rs + resources[..j], expected)
    {
      ArchiveAdded(rs + resources[..j], expected, resources[j]);
      OneMore(rs, resources, j);
      if resources[j].archive in expected {
        return false, expected;
      }
      expected := expected[resources[j].archive := resources[j]];
    }
    assert resources[..|resources|] == resources;
  }

  lemma ArchiveAdded(rs: seq<ResourceManifest>, expected: map<string, ResourceManifest>, r: ResourceManifest)
    requires DistinctArchives(rs) && ByArchive(rs, expected)
    ensures DistinctArchives(rs + [r]) <==> r.archive !in expected
    ensures r.archive !in expected ==> ByArchive(rs + [r], expected[r.archive := r])
  {
    var more := rs + [r];
    assert more[|rs|] == r;
    assert forall k :: 0 <= k < |rs| ==> more[k] == rs[k];
    if r.archive in expected {
      var k :| 0 <= k < |rs| && rs[k].archive == r.archive;
      assert more[k].archive == more[|rs|].archive;
    } else {
      forall a | a in expected
        ensures exists k :: 0 <= k < |more| && more[k].archive == a
      {
        var k :| 0 <= k < |rs| && rs[k].archive == a;
        assert more[k].archive == a;
      }
      assert more[|rs|].archive == r.archive;
    }
  }

  lemma OneMore(rs: seq<ResourceManifest>, resources: seq<ResourceManifest>, j: nat)
    requires j < |resources|
    ensures rs + resources[..j + 1] == rs + resources[..j] + [resources[j]]
    ensures rs + resources[..j + 1] <= rs + resources
  {
  }

  lemma ServiceApart(services: seq<ServiceManifest>, i: nat)
    requires i < |services|
    ensures ServiceResources(services[..i + 1]) == ServiceResources(services[..i]) + services[i].resources
  {
    assert services[..i + 1][..i] == services[..i];
  }

  lemma {:induction false} ResourcesGrow(services: seq<ServiceManifest>, i: nat)
    requires i <= |services|
    ensures ServiceResources(services[..i]) <= ServiceResources(services)
    decreases |services|
  {
    if i == |services| {
      assert services[..i] == services;
    } else {
      ResourcesGrow(services[..|services| - 1], i);
      assert services[..|services| - 1][..i] == services[..i];
    }
  }

  method CheckEntry(name: string, node: Node, expected: map<string, ResourceManifest>,
                    ghost rs: seq<ResourceManifest>)
    returns (ok: bool)
    requires DistinctArchives(rs) && ByArchive(rs, expected)
    ensures ok <==> EntryFine(name, node, rs)
  {
    match node
    case Link => return false;
    case Folder => return true;
    case Special => return false;
    case File(content) =>
      if name == MANIFEST {
        return true;
      }
      if name !in expected {
        return false;
      }
      var resource := expected[name];
      ghost var k :| 0 <= k < |rs| && rs[k].archive == name;
      assert rs[k] == resource;
      if Size(content) != resource.storedSize || OfContent(content) != resource.sha256 || !content.Tar? {
        return false;
      }
      var accepted, _ := Archive.RewriteArchive(content.stream, _ => true, _ => true);
      return accepted;
  }

  /** `repositoryVerifyPath`: succeeds exactly on directories that correspond to the manifest. */
  method VerifyPath(dir: Dir, m: Manifest) returns (ok: bool)
    ensures ok <==> Verifies(dir, m)
  {
    var valid := CheckManifest(m);
    if !valid || m.digest != OfManifest(m.(digest := NoSum)) {
      return false;
    }
    var distinct, expected := ExpectedArchives(m);
    if !distinct {
      return false;
    }
    var seen;
    ok, seen := Walk(dir, expected, Resources(m));
    if ok {
      ok := forall a :: a in expected ==> a in seen;
    }
  }

  /** The directory walk: every entry fine, and the archives met on the way. */
  method Walk(dir: Dir, expected: map<string, ResourceManifest>, ghost rs: seq<ResourceManifest>)
    returns (ok: bool, seen: set<string>)
    requires DistinctArchives(rs) && ByArchive(rs, expected)
    ensures ok <==> forall name :: name in dir ==> EntryFine(name, dir[name], rs)
    ensures ok ==> seen == StoredNames(dir)
  {
    ok := true;
    seen := {};
    var todo := dir.Keys;
    while todo != {}
      invariant ok && todo <= dir.Keys
      invariant forall name :: name in dir && name !in todo ==> EntryFine(name, dir[name], rs)
      invariant seen == StoredNames(dir) - todo
      decreases todo
    {
      var name :| name in todo;
      ok := CheckEntry(name, dir[name], expected, rs);
      if !ok {
        return;
      }
      todo := todo - {name};
      if Stored(name, dir[name]) {
        seen := seen + {name};
      }
    }
  }

  /** The correspondence is a bijection: the stored files are exactly the resources' archives, and as many. */
  lemma VerifiedIsBijective(dir: Dir, m: Manifest)
    requires Verifies(dir, m)
    ensures StoredNames(dir) == set r | r in Resources(m) :: r.archive
    ensures |Resources(m)| == |StoredNames(dir)|
  {
    var rs := Resources(m);
    forall name | name in StoredNames(dir)
      ensures name in Archives(rs) && name in set r | r in rs :: r.archive
    {
      assert EntryFine(name, dir[name], rs);
    }
    CorrespondenceIsBijective(rs, StoredNames(dir));
  }

  lemma CorrespondenceIsBijective(rs: seq<ResourceManifest>, names: set<string>)
    requires DistinctArchives(rs)
    requires forall name :: name in names ==> name in Archives(rs)
    requires forall k :: 0 <= k < |rs| ==> rs[k].archive in names
    ensures |rs| == |names|
  {
    DistinctLength(Archives(rs), names);
    SetNoLarger(names, Archives(rs));
  }

  ghost function Archives(rs: seq<ResourceManifest>): (archives: seq<string>)
    ensures |archives| == |rs| && forall k :: 0 <= k < |rs| ==> archives[k] == rs[k].archive
  {
    seq(|rs|, k requires 0 <= k < |rs| => rs[k].archive)
  }

  lemma {:induction false} SetNoLarger(all: set<string>, s: seq<string>)
    requires forall x :: x in all ==> x in s
    ensures |all| <= |s|
  {
    if s == [] {
      assert all == {};
    } else {
      var last := s[|s| - 1];
      assert s == s[..|s| - 1] + [last];
      SetNoLarger(all - {last}, s[..|s| - 1]);
      assert all <= (all - {last}) + {last};
    }
  }

  /** `loadManifest`: the directory's own manifest, if it is readable, valid and sealed. */
  function LoadManifest(dir: Dir): Option<Manifest> {
    if MANIFEST in dir && dir[MANIFEST].File? && dir[MANIFEST].content.Encoded?
       && ValidManifest(dir[MANIFEST].content.manifest) && Sealed(dir[MANIFEST].content.manifest)
    then Some(dir[MANIFEST].content.manifest) else None
  }
}
