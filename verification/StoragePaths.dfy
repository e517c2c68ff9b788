/** `internal/config/config.go`: declared storage, the paths resolved under it, and byte quantities. */
module StoragePaths {
  import opened Text
  import opened Paths
  import Decimals

  datatype StorageResource = StorageResource(
    name: string, mount: string, uuid: string, filesystemType: string, minimumCapacity: int, minimumFree: int)

  /** A data declaration; `storage` is empty when the path is absolute. */
  datatype DataResource = DataResource(storage: string, path: string)

  const FORBIDDEN: seq<string> :=
    ["/etc", "/usr", "/var", "/home", "/root", "/proc", "/sys", "/dev", "/run", "/boot", "/bin", "/lib", "/lib64",
     "/sbin"]
  const ALLOWED: seq<string> := ["/srv/", "/mnt/", "/data/"]

  predicate Lower(c: char) { 'a' <= c <= 'z' }

  predicate Letter(c: char) { Lower(c) || 'A' <= c <= 'Z' }

  predicate ValidName(s: string) {
    1 <= |s| <= 63 && Lower(s[0]) && forall i :: 1 <= i < |s| ==> Lower(s[i]) || Digit(s[i]) || s[i] == '-'
  }

  predicate ValidUuid(s: string) {
    8 <= |s| <= 64 && (Letter(s[0]) || Digit(s[0])) && forall i :: 1 <= i < |s| ==>
      Letter(s[i]) || Digit(s[i]) || s[i] == '-'
  }

  predicate ValidFilesystemType(s: string) {
    1 <= |s| <= 32 && (Lower(s[0]) || Digit(s[0])) && forall i :: 1 <= i < |s| ==>
      Lower(s[i]) || Digit(s[i]) || s[i] in "._+-"
  }

  /** The path is `base` or lies below it. */
  predicate Within(path: string, base: string) {
    path == base || HasPrefix(path, base + "/")
  }

  predicate CleanAbsolute(path: string) {
    IsAbs(path) && '\0' !in path && Clean(path) == path && path != "/"
  }

  predicate OnSystemTree(path: string) {
    exists i :: 0 <= i < |FORBIDDEN| && Within(path, FORBIDDEN[i])
  }

  predicate OnDataTree(path: string) {
    exists i :: 0 <= i < |ALLOWED| && HasPrefix(path, ALLOWED[i])
  }

  /** `ValidateStorageMount`. */
  predicate ValidMount(mount: string) {
    CleanAbsolute(mount) && !OnSystemTree(mount) && OnDataTree(mount)
  }

  /** `ValidateBackupPath`. */
  predicate ValidBackupPath(path: string, dataRoot: string) {
    CleanAbsolute(path) && !OnSystemTree(path) && !Within(path, dataRoot) && OnDataTree(path)
  }

  predicate ValidResource(r: StorageResource) {
    && ValidName(r.name) && r.name != "resources" && ValidMount(r.mount) && ValidUuid(r.uuid)
    && (r.filesystemType != "" ==> ValidFilesystemType(r.filesystemType))
    && r.minimumCapacity >= 0 && r.minimumFree >= 0
  }

  /** A valid resource whose name comes after its predecessor's. */
  predicate InOrder(rs: seq<StorageResource>, i: nat)
    requires i < |rs|
  {
    ValidResource(rs[i]) && (i > 0 ==> Less(rs[i - 1].name, rs[i].name))
  }

  predicate Nested(a: StorageResource, b: StorageResource) {
    a.name != b.name && HasPrefix(b.mount, a.mount + "/")
  }

  /** What `validateStorageResources` accepts. */
  ghost predicate ValidStorage(rs: seq<StorageResource>) {
    && (forall i :: 0 <= i < |rs| ==> InOrder(rs, i))
    && Separate(rs)
    && forall i, j :: 0 <= i < |rs| && 0 <= j < |rs| ==> !Nested(rs[i], rs[j])
  }

  ghost predicate Separate(rs: seq<StorageResource>) {
    forall i, j :: 0 <= i < j < |rs| ==> rs[i].mount != rs[j].mount && rs[i].uuid != rs[j].uuid
  }

  ghost function Mounts(rs: seq<StorageResource>): set<string> {
    set r | r in rs :: r.mount
  }

  ghost function Uuids(rs: seq<StorageResource>): set<string> {
    set r | r in rs :: r.uuid
  }

  // ---- the patterns, matched from left to right

  /** One to 63 characters: a lower-case letter, then lower-case letters, digits and hyphens. */
  method MatchesName(s: string) returns (ok: bool)
    ensures ok <==> ValidName(s)
  {
    if s == "" || |s| > 63 || !('a' <= s[0] <= 'z') {
      return false;
    }
    for i := 1 to |s|
      invariant forall k :: 1 <= k < i ==> Lower(s[k]) || Digit(s[k]) || s[k] == '-'
    {
      if !('a' <= s[i] <= 'z' || '0' <= s[i] <= '9' || s[i] == '-') {
        return false;
      }
    }
    return true;
  }

  /** Eight to 64 characters: a letter or a digit, then letters, digits and hyphens. */
  method MatchesUuid(s: string) returns (ok: bool)
    ensures ok <==> ValidUuid(s)
  {
    if |s| < 8 || |s| > 64 || s[0] == '-' {
      return false;
    }
    for i := 0 to |s|
      invariant forall k :: 0 <= k < i ==> Letter(s[k]) || Digit(s[k]) || s[k] == '-'
    {
      if !('a' <= s[i] <= 'z' || 'A' <= s[i] <= 'Z' || '0' <= s[i] <= '9' || s[i] == '-') {
        return false;
      }
    }
    return true;
  }

  /** One to 32 characters: a lower-case letter or a digit, then those, dots, underscores, plus signs and hyphens. */
  method MatchesFilesystemType(s: string) returns (ok: bool)
    ensures ok <==> ValidFilesystemType(s)
  {
    if s == "" || |s| > 32 || !('a' <= s[0] <= 'z' || '0' <= s[0] <= '9') {
      return false;
    }
    for i := 1 to |s|
      invariant forall k :: 1 <= k < i ==> Lower(s[k]) || Digit(s[k]) || s[k] in "._+-"
    {
      var c := s[i];
      if !('a' <= c <= 'z' || '0' <= c <= '9' || c == '.' || c == '_' || c == '+' || c == '-') {
        return false;
      }
    }
    return true;
  }

  /** `ValidateStorageMount`. */
  method CheckMount(mount: string) returns (ok: bool)
    ensures ok <==> ValidMount(mount)
  {
    if mount == "" || mount[0] != '/' || '\0' in mount || Clean(mount) != mount || mount == "/" {
      return false;
    }
    for i := 0 to |FORBIDDEN|
      invariant forall k :: 0 <= k < i ==> !Within(mount, FORBIDDEN[k])
    {
      if mount == FORBIDDEN[i] || HasPrefix(mount, FORBIDDEN[i] + "/") {
        return false;
      }
    }
    for i := 0 to |ALLOWED|
      invariant forall k :: 0 <= k < i ==> !HasPrefix(mount, ALLOWED[k])
    {
      if HasPrefix(mount, ALLOWED[i]) {
        return true;
      }
    }
    return false;
  }

  method CheckResource(r: StorageResource) returns (ok: bool)
    ensures ok <==> ValidResource(r)
  {
    ok := MatchesName(r.name);
    if !ok || r.name == "resources" {
      return false;
    }
    ok := CheckMount(r.mount);
    if ok {
      ok := MatchesUuid(r.uuid);
    }
    if ok && r.filesystemType != "" {
      ok := MatchesFilesystemType(r.filesystemType);
    }
    return ok && !(r.minimumCapacity < 0 || r.minimumFree < 0);
  }

  method ValidateStorageResources(rs: seq<StorageResource>) returns (ok: bool)
    ensures ok <==> ValidStorage(rs)
  {
    ok := CheckEach(rs);
    if ok {
      ok := CheckDistinct(rs);
    }
    if ok {
      ok := CheckNesting(rs);
    }
  }

  /** The checks of the first pass on one resource and its predecessor. */
  method CheckEach(rs: seq<StorageResource>) returns (ok: bool)
    ensures ok <==> forall i :: 0 <= i < |rs| ==> InOrder(rs, i)
  {
    for i := 0 to |rs|
      invariant forall k :: 0 <= k < i ==> InOrder(rs, k)
    {
      var valid := CheckResource(rs[i]);
      if (i > 0 && !Less(rs[i - 1].name, rs[i].name)) || !valid {
        assert !InOrder(rs, i);
        return false;
      }
    }
    return true;
  }

  /** The maps of the first pass: no mount and no filesystem twice. */
  method CheckDistinct(rs: seq<StorageResource>) returns (ok: bool)
    ensures ok <==> Separate(rs)
  {
    var mounts: set<string>, uuids: set<string> := {}, {};
    for i := 0 to |rs|
      invariant Separate(rs[..i]) && mounts == Mounts(rs[..i]) && uuids == Uuids(rs[..i])
    {
      if rs[i].mount in mounts || rs[i].uuid in uuids {
        return false;
      }
      mounts, uuids := mounts + {rs[i].mount}, uuids + {rs[i].uuid};
    }
    assert rs[..|rs|] == rs;
    return true;
  }

  method CheckNesting(rs: seq<StorageResource>) returns (ok: bool)
    ensures ok <==> forall i, j :: 0 <= i < |rs| && 0 <= j < |rs| ==> !Nested(rs[i], rs[j])
  {
    for i := 0 to |rs|
      invariant forall a, b :: 0 <= a < i && 0 <= b < |rs| ==> !Nested(rs[a], rs[b])
    {
      for j := 0 to |rs|
        invariant forall b :: 0 <= b < j ==> !Nested(rs[i], rs[b])
      {
        if rs[i].name != rs[j].name && HasPrefix(rs[j].mount, rs[i].mount + "/") {
          return false;
        }
      }
    }
    return true;
  }

  predicate CleanRelativePath(path: string) {
    path != "" && !IsAbs(path) && '\0' !in path && Clean(path) == path && path != "." && !PointsUp(path)
  }

  function FindStorage(rs: seq<StorageResource>, name: string): Option<StorageResource> {
    if rs == [] then None else if rs[0].name == name then Some(rs[0]) else FindStorage(rs[1..], name)
  }

  /** What `ResolveDataPath` gives. */
  function ResolveDataPath(rs: seq<StorageResource>, d: DataResource): Option<string> {
    if d.storage == "" then (if d.path == "" then None else Some(d.path))
    else if !ValidName(d.storage) || !CleanRelativePath(d.path) || FindStorage(rs, d.storage).None? then None
    else Some(JoinPath(FindStorage(rs, d.storage).value.mount, d.path))
  }

  /** `ResolveDataPath`. */
  method ResolvePath(rs: seq<StorageResource>, d: DataResource) returns (path: Option<string>)
    ensures path == ResolveDataPath(rs, d)
  {
    if d.storage == "" {
      return if d.path != "" then Some(d.path) else None;
    }
    var named := MatchesName(d.storage);
    if !named || d.path == "" || d.path[0] == '/' || '\0' in d.path || Clean(d.path) != d.path || d.path == "."
      || HasPrefix(d.path, "../") || d.path == ".." {
      return None;
    }
    for i := 0 to |rs|
      invariant FindStorage(rs, d.storage) == FindStorage(rs[i..], d.storage)
    {
      assert rs[i..][1..] == rs[i + 1..];
      if rs[i].name == d.storage {
        return Some(JoinPath(rs[i].mount, d.path));
      }
    }
    return None;
  }

  // ---- clean absolute paths

  ghost predicate Names(parts: seq<string>) {
    forall i :: 0 <= i < |parts| ==> Name(parts[i])
  }

  /** A clean absolute path other than the root is a slash and its proper names. */
  lemma CleanAbsoluteParts(path: string) returns (names: seq<string>)
    requires IsAbs(path) && Clean(path) == path && path != "/"
    ensures names != [] && Names(names) && Split(path) == [""] + names && path == "/" + Join(names)
  {
    SplitSlashless(path);
    ResolveNormal(Split(path), true);
    names := Resolve(Split(path), true);
    assert path == "/" + Join(names);
    if names != [] {
      SplitOfJoin(names);
      SplitAtSlash("", Join(names));
      assert "" + "/" + Join(names) == "/" + Join(names);
    }
  }

  lemma CleanRelativeParts(path: string) returns (names: seq<string>)
    requires CleanRelativePath(path)
    ensures names != [] && Names(names) && Split(path) == names
  {
    CleanRelative(path);
    names := Resolve(Split(path), false);
  }

  /** A slash and proper names are already clean. */
  lemma NamesAreClean(path: string, names: seq<string>)
    requires names != [] && Names(names) && Split(path) == [""] + names && IsAbs(path)
    ensures Clean(path) == path
  {
    ResolveNames(names);
    JoinOfSplit(path);
  }

  lemma ResolveNames(names: seq<string>)
    requires Names(names)
    ensures Resolve([""] + names, true) == names
  {
    assert Resolve([""], true) == [];
    ResolveResolved([""], names, true);
    assert [] + names == names;
    ResolveOfNormal(names, true);
  }

  lemma PartsTogether(m: seq<string>, r: seq<string>)
    ensures [""] + m + r == [""] + (m + r)
  {
  }

  /** A path resolved under a mount is the mount, a slash, and the declared path. */
  lemma JoinedIsBelow(mount: string, path: string)
    requires CleanAbsolute(mount) && CleanRelativePath(path)
    ensures JoinPath(mount, path) == mount + "/" + path && CleanAbsolute(mount + "/" + path)
  {
    var m := CleanAbsoluteParts(mount);
    var r := CleanRelativeParts(path);
    SplitAtSlash(mount, path);
    PartsTogether(m, r);
    NamesAreClean(mount + "/" + path, m + r);
  }

  // ---- what accepted storage guarantees

  lemma {:induction false} FoundStorage(rs: seq<StorageResource>, name: string)
    requires FindStorage(rs, name).Some?
    ensures FindStorage(rs, name).value in rs && FindStorage(rs, name).value.name == name
  {
    if rs[0].name != name {
      FoundStorage(rs[1..], name);
    }
  }

  /** Two bases of one path are equal or one lies below the other. */
  lemma BasesCompare(path: string, a: string, b: string)
    requires HasPrefix(path, a + "/") && HasPrefix(path, b + "/")
    ensures a == b || HasPrefix(b, a + "/") || HasPrefix(a, b + "/")
  {
    var a', b' := a + "/", b + "/";
    assert a' == path[..|a'|] && b' == path[..|b'|];
    assert a == a'[..|a|] && b == b'[..|b|];
    if |a| < |b| {
      assert a' == b[..|a'|];
    } else if |b| < |a| {
      assert b' == a[..|b'|];
    } else {
      assert a == path[..|a|] && b == path[..|b|];
    }
  }

  lemma ResolvedShape(rs: seq<StorageResource>, d: DataResource) returns (r: StorageResource)
    requires ValidStorage(rs) && d.storage != "" && ResolveDataPath(rs, d).Some?
    ensures r in rs && r.name == d.storage && ValidResource(r) && CleanRelativePath(d.path)
    ensures ResolveDataPath(rs, d) == Some(r.mount + "/" + d.path)
    ensures CleanAbsolute(r.mount + "/" + d.path)
  {
    FoundStorage(rs, d.storage);
    r := FindStorage(rs, d.storage).value;
    var i :| 0 <= i < |rs| && rs[i] == r;
    assert InOrder(rs, i);
    JoinedIsBelow(r.mount, d.path);
  }

  /** Paths resolved under two different storage resources are never equal and never one below the other. */
  lemma ResolvedApart(rs: seq<StorageResource>, d: DataResource, e: DataResource)
    requires ValidStorage(rs) && d.storage != "" && e.storage != "" && d.storage != e.storage
    requires ResolveDataPath(rs, d).Some? && ResolveDataPath(rs, e).Some?
    ensures !Within(ResolveDataPath(rs, d).value, ResolveDataPath(rs, e).value)
    ensures !Within(ResolveDataPath(rs, e).value, ResolveDataPath(rs, d).value)
  {
    var r := ResolvedShape(rs, d);
    var s := ResolvedShape(rs, e);
    var i :| 0 <= i < |rs| && rs[i] == r;
    var j :| 0 <= j < |rs| && rs[j] == s;
    assert !Nested(rs[i], rs[j]) && !Nested(rs[j], rs[i]) && r.mount != s.mount;
    NotWithin(r.mount, d.path, s.mount, e.path);
    NotWithin(s.mount, e.path, r.mount, d.path);
  }

  lemma NotWithin(m: string, p: string, n: string, q: string)
    requires m != n && !HasPrefix(n, m + "/") && !HasPrefix(m, n + "/")
    ensures !Within(m + "/" + p, n + "/" + q)
  {
    var path := m + "/" + p;
    assert HasPrefix(path, m + "/");
    if Within(path, n + "/" + q) {
      assert HasPrefix(n + "/" + q, n + "/");
      assert HasPrefix(path, n + "/");
      BasesCompare(path, m, n);
      assert false;
    }
  }

  lemma BelowMountOffSystemTrees(mount: string, path: string)
    requires !OnSystemTree(mount) && OnDataTree(mount)
    ensures !OnSystemTree(mount + "/" + path)
  {
    forall i | 0 <= i < |FORBIDDEN|
      ensures !Within(mount + "/" + path, FORBIDDEN[i])
    {
      assert !Within(mount, FORBIDDEN[i]);
      OffTree(mount, path, FORBIDDEN[i]);
    }
  }

  lemma ShallowTree(mount: string, tree: string)
    requires |mount| >= 1 && forall k :: 1 <= k < |tree| ==> tree[k] != '/'
    ensures !HasPrefix(tree, mount + "/")
  {
    assert (mount + "/")[|mount|] == '/';
    if |mount| < |tree| {
      assert tree[|mount|] != '/';
    }
  }

  lemma OffTree(mount: string, path: string, tree: string)
    requires !Within(mount, tree)
    requires |mount| >= 5 && (mount[4] == '/' || (|mount| >= 6 && mount[5] == '/'))
    requires forall k :: 1 <= k < |tree| ==> tree[k] != '/'
    ensures !Within(mount + "/" + path, tree)
  {
    var full := mount + "/" + path;
    assert HasPrefix(full, mount + "/");
    ShallowTree(mount, tree);
    if HasPrefix(full, tree + "/") {
      BasesCompare(full, mount, tree);
      assert false;
    }
  }

  /** A path resolved under accepted storage passes the backup check unless it is the data root or lies inside it. */
  lemma ResolvedIsBackupPath(rs: seq<StorageResource>, d: DataResource, dataRoot: string)
    requires ValidStorage(rs) && d.storage != "" && ResolveDataPath(rs, d).Some?
    ensures ValidBackupPath(ResolveDataPath(rs, d).value, dataRoot) <==> !Within(ResolveDataPath(rs, d).value, dataRoot)
  {
    var r := ResolvedShape(rs, d);
    BelowMountOffSystemTrees(r.mount, d.path);
    var i :| 0 <= i < |ALLOWED| && HasPrefix(r.mount, ALLOWED[i]);
    assert HasPrefix(r.mount + "/" + d.path, ALLOWED[i]);
  }

  // ---- byte quantities

  datatype Unit = KiB | MiB | GiB | TiB | KB | MB | GB | TB

  function Multiplier(unit: Unit): int {
    match unit
    case KiB => 0x400
    case MiB => 0x10_0000
    case GiB => 0x4000_0000
    case TiB => 0x100_0000_0000
    case KB => 1000
    case MB => 1_000_000
    case GB => 1_000_000_000
    case TB => 1_000_000_000_000
  }

  function Power(base: nat, n: nat): nat {
    if n == 0 then 1 else base * Power(base, n - 1)
  }

  /** The prefixes of the units, in order: each stands for the next power of the base. */
  const PREFIXES := "KMGT"

  /** Units that end in iB count in powers of 1024, the others in powers of 1000. */
  lemma UnitIsAPower(unit: Unit, i: nat)
    requires i < 4 && PREFIXES[i] == UnitName(unit)[0]
    ensures Multiplier(unit) ==
            Power(if |UnitName(unit)| == 3 && UnitName(unit)[1..] == "iB" then 1024 else 1000, i + 1)
  {
    var base := if |UnitName(unit)| == 3 && UnitName(unit)[1..] == "iB" then 1024 else 1000;
    assert Power(base, 0) == 1 && Power(base, 1) == base;
    assert Power(base, 2) == base * base;
    assert Power(base, 3) == base * (base * base);
    assert Power(base, 4) == base * (base * (base * base));
  }

  /** `ParseByteSize` on an amount and its unit: the overflow check divides, so that nothing overflows on the way. */
  function ByteSize(amount: string, unit: Unit): Option<int> {
    if !Decimals.Number(amount) then None
    else
      match Decimals.ParseInt(amount)
      case None => None
      case Some(n) =>
        if n <= 0 || n > Decimals.MAX_INT64 / Multiplier(unit) then None else Some(n * Multiplier(unit))
  }

  function UnitName(unit: Unit): (name: string)
    ensures name != "" && !Digit(name[0])
  {
    match unit
    case KiB => "KiB" case MiB => "MiB" case GiB => "GiB" case TiB => "TiB"
    case KB => "KB" case MB => "MB" case GB => "GB" case TB => "TB"
  }

  function UnitNamed(name: string): (unit: Option<Unit>)
    ensures unit.Some? ==> UnitName(unit.value) == name
    ensures forall u :: UnitName(u) == name ==> unit == Some(u)
  {
    if name == "KiB" then Some(KiB) else if name == "MiB" then Some(MiB)
    else if name == "GiB" then Some(GiB) else if name == "TiB" then Some(TiB)
    else if name == "KB" then Some(KB) else if name == "MB" then Some(MB)
    else if name == "GB" then Some(GB) else if name == "TB" then Some(TB)
    else None
  }

  /** How many characters the amount in front of the unit has. */
  function LeadingDigits(s: string): (n: nat)
    ensures n <= |s| && forall i :: 0 <= i < n ==> Digit(s[i])
  {
    if s != "" && Digit(s[0]) then 1 + LeadingDigits(s[1..]) else 0
  }

  /** `ParseByteSize` of a whole quantity: digits, then one of the units. */
  function ParseByteSize(value: string): Option<int> {
    var k := LeadingDigits(value);
    match UnitNamed(value[k..])
    case None => None
    case Some(unit) => ByteSize(value[..k], unit)
  }

  /** The text is an amount in decimal digits directly followed by a unit. */
  ghost predicate Quantity(value: string, amount: string, unit: Unit) {
    Decimals.Number(amount) && value == amount + UnitName(unit)
  }

  lemma {:induction false} LeadingAmount(amount: string, rest: string)
    requires (forall i :: 0 <= i < |amount| ==> Digit(amount[i])) && rest != "" && !Digit(rest[0])
    ensures LeadingDigits(amount + rest) == |amount|
  {
    if amount == "" {
      assert amount + rest == rest;
    } else {
      LeadingAmount(amount[1..], rest);
      assert (amount + rest)[1..] == amount[1..] + rest;
    }
  }

  /** A quantity is accepted exactly when its byte count is positive and fits 64 bits, and then it is that count. */
  lemma ByteSizeIsExact(value: string, amount: string, unit: Unit)
    requires Quantity(value, amount, unit)
    ensures ParseByteSize(value) ==
            if 0 < Decimals.Value(amount) * Multiplier(unit) <= Decimals.MAX_INT64
            then Some(Decimals.Value(amount) * Multiplier(unit)) else None
  {
    LeadingAmount(amount, UnitName(unit));
    assert value[|amount|..] == UnitName(unit) && value[..|amount|] == amount;
    assert Digit(amount[0]);
    Scale(Decimals.Value(amount), Multiplier(unit), Decimals.MAX_INT64);
  }

  /** Nothing but a quantity is accepted, a bare number in particular. */
  lemma OnlyQuantitiesParse(value: string)
    requires ParseByteSize(value).Some?
    ensures exists amount, unit :: Quantity(value, amount, unit)
  {
    var k := LeadingDigits(value);
    assert Quantity(value, value[..k], UnitNamed(value[k..]).value);
  }

  lemma Scale(n: nat, m: int, limit: int)
    requires m >= 1 && limit >= 0
    ensures n > limit / m <==> n * m > limit
    ensures n * m >= n && (n * m > 0 <==> n > 0)
  {
    var q, r := limit / m, limit % m;
    assert limit == q * m + r;
    if n > q {
      Monotone(q + 1, n, m);
    } else {
      Monotone(n, q, m);
    }
    Monotone(1, m, n);
  }

  lemma Monotone(a: int, b: int, m: int)
    requires a <= b && m >= 0
    ensures a * m <= b * m
  {
  }
}
