/** Version order and in-place upgrades of a generated source. */
module Upgrades {
  // `internal/recipes/recipes.go` and `internal/recipes/write.go`.

  import opened Text
  import opened Decimals

  // ---- versions

  /** A version as its three dot-separated numbers, each without leading zeros (`semverPattern`). */
  datatype Version = Version(parts: seq<string>)

  predicate ValidPart(part: string) {
    Number(part) && (|part| > 1 ==> part[0] != '0')
  }

  predicate ValidVersion(v: Version) {
    |v.parts| == 3 && forall i :: 0 <= i < 3 ==> ValidPart(v.parts[i])
  }

  /** `compareVersion`: part by part, through `strconv.Atoi` with its error ignored. */
  method CompareVersion(left: Version, right: Version) returns (r: int)
    requires ValidVersion(left) && ValidVersion(right)
    ensures r == Compare(left, right, 0)
  {
    for i := 0 to |left.parts|
      invariant Compare(left, right, 0) == Compare(left, right, i)
    {
      var l, r' := Atoi(left.parts[i]), Atoi(right.parts[i]);
      if l < r' {
        return -1;
      }
      if l > r' {
        return 1;
      }
    }
    return 0;
  }

  function Compare(left: Version, right: Version, i: nat): int
    requires ValidVersion(left) && ValidVersion(right) && i <= 3
    decreases 3 - i
  {
    if i == 3 then 0
    else if Atoi(left.parts[i]) < Atoi(right.parts[i]) then -1
    else if Atoi(left.parts[i]) > Atoi(right.parts[i]) then 1
    else Compare(left, right, i + 1)
  }

  /** Precedence of X.Y.Z versions by section 11 of Semantic Versioning 2.0.0: numerically, left to right. */
  function Precedence(left: Version, right: Version, i: nat): int
    requires ValidVersion(left) && ValidVersion(right) && i <= 3
    decreases 3 - i
  {
    if i == 3 then 0
    else if Value(left.parts[i]) < Value(right.parts[i]) then -1
    else if Value(left.parts[i]) > Value(right.parts[i]) then 1
    else Precedence(left, right, i + 1)
  }

  /** The first part, from `i` on, in which the versions differ as numbers; three if they do not. */
  function FirstDifference(left: Version, right: Version, i: nat): (k: nat)
    requires ValidVersion(left) && ValidVersion(right) && i <= 3
    ensures i <= k <= 3
    ensures k < 3 ==> Value(left.parts[k]) != Value(right.parts[k])
    decreases 3 - i
  {
    if i == 3 || Value(left.parts[i]) != Value(right.parts[i]) then i else FirstDifference(left, right, i + 1)
  }

  /** The first part, from `i` on, in which they differ once numbers too large for 64 bits count as the largest. */
  function FirstClampedDifference(left: Version, right: Version, i: nat): (j: nat)
    requires ValidVersion(left) && ValidVersion(right) && i <= 3
    ensures FirstDifference(left, right, i) <= j <= 3
    ensures j < 3 ==> Atoi(left.parts[j]) != Atoi(right.parts[j])
    decreases 3 - i
  {
    if i == 3 || Atoi(left.parts[i]) != Atoi(right.parts[i]) then i else FirstClampedDifference(left, right, i + 1)
  }

  /**
   * The comparison is the standard's exactly when the versions are equal, or some parts differ within 64 bits and the
   * first that do are ordered as the first that differ at all.
   */
  lemma {:induction false} ComparesByPrecedence(left: Version, right: Version, i: nat)
    requires ValidVersion(left) && ValidVersion(right) && i <= 3
    ensures var k, j := FirstDifference(left, right, i), FirstClampedDifference(left, right, i);
            Compare(left, right, i) == Precedence(left, right, i) <==>
            (k == 3 ||
             (j < 3 && (Atoi(left.parts[j]) < Atoi(right.parts[j]) <==> Value(left.parts[k]) < Value(right.parts[k]))))
    decreases 3 - i
  {
    ComparesByParts(left, right, i);
    PrecedesByParts(left, right, i);
  }

  lemma {:induction false} ComparesByParts(left: Version, right: Version, i: nat)
    requires ValidVersion(left) && ValidVersion(right) && i <= 3
    ensures var j := FirstClampedDifference(left, right, i);
            Compare(left, right, i) ==
            if j == 3 then 0 else if Atoi(left.parts[j]) < Atoi(right.parts[j]) then -1 else 1
    decreases 3 - i
  {
    if i < 3 && Atoi(left.parts[i]) == Atoi(right.parts[i]) {
      ComparesByParts(left, right, i + 1);
    }
  }

  lemma {:induction false} PrecedesByParts(left: Version, right: Version, i: nat)
    requires ValidVersion(left) && ValidVersion(right) && i <= 3
    ensures var k := FirstDifference(left, right, i);
            Precedence(left, right, i) ==
            if k == 3 then 0 else if Value(left.parts[k]) < Value(right.parts[k]) then -1 else 1
    decreases 3 - i
  {
    if i < 3 && Value(left.parts[i]) == Value(right.parts[i]) {
      PrecedesByParts(left, right, i + 1);
    }
  }

  /** With every part below 2^63 the comparison is the standard's. */
  lemma ComparesSmallVersions(left: Version, right: Version)
    requires ValidVersion(left) && ValidVersion(right)
    requires forall i :: 0 <= i < 3 ==> Value(left.parts[i]) <= MAX_INT64 && Value(right.parts[i]) <= MAX_INT64
    ensures Compare(left, right, 0) == Precedence(left, right, 0)
  {
    ComparesByParts(left, right, 0);
    PrecedesByParts(left, right, 0);
    SameFirstDifference(left, right, 0);
  }

  lemma {:induction false} SameFirstDifference(left: Version, right: Version, i: nat)
    requires ValidVersion(left) && ValidVersion(right) && i <= 3
    requires forall k :: i <= k < 3 ==> Value(left.parts[k]) <= MAX_INT64 && Value(right.parts[k]) <= MAX_INT64
    ensures FirstClampedDifference(left, right, i) == FirstDifference(left, right, i)
    decreases 3 - i
  {
    if i < 3 {
      SameFirstDifference(left, right, i + 1);
    }
  }

  lemma {:induction false} DigitsLead(n: nat)
    requires n > 0
    ensures Digits(n)[0] != '0'
  {
    if n >= 10 {
      DigitsLead(n / 10);
    }
  }

  /** Beyond 64 bits it is not: major versions from 2^63 - 1 on all tie. */
  lemma LargeVersionsTie(left: Version, right: Version)
    requires ValidVersion(left) && ValidVersion(right)
    requires left.parts[1..] == right.parts[1..] && MAX_INT64 <= Value(left.parts[0]) < Value(right.parts[0])
    ensures Compare(left, right, 0) == 0 && Precedence(left, right, 0) == -1
  {
    assert left.parts[1] == left.parts[1..][0] && left.parts[2] == left.parts[1..][1];
    assert right.parts[1] == right.parts[1..][0] && right.parts[2] == right.parts[1..][1];
    assert Compare(left, right, 2) == Compare(left, right, 3);
    assert Compare(left, right, 1) == Compare(left, right, 2);
  }

  lemma PartFor(n: nat) returns (part: string)
    requires n > 0
    ensures ValidPart(part) && Value(part) == n
  {
    DigitsLead(n);
    part := Digits(n);
  }

  /** There are such versions: 2^63 - 1 and 2^63, for instance. */
  lemma LargeVersionsExist(n: nat, part: string) returns (left: Version, right: Version)
    requires n >= MAX_INT64 && ValidPart(part)
    ensures ValidVersion(left) && ValidVersion(right)
    ensures Compare(left, right, 0) == 0 && Precedence(left, right, 0) == -1
  {
    var a := PartFor(n);
    var b := PartFor(n + 1);
    left, right := Version([a, part, part]), Version([b, part, part]);
    assert left.parts[1..] == [part, part] == right.parts[1..];
    LargeVersionsTie(left, right);
  }

  // ---- upgrades

  datatype DataResource = DataResource(name: string, typ: string, volume: string, path: string, storage: string)

  /** The fields `sameServiceContract` compares. */
  datatype Service = Service(
    name: string, source: string, typ: string, state: string, healthTimeout: string, secretEnvFile: string,
    consistency: string, data: seq<DataResource>)

  datatype Provenance = Provenance(
    recipeId: string, version: Version, source: string, composeSum: string, secretParameters: seq<string>,
    secretFile: string)

  /** A generated source directory; hashes are injective, so the sum stands for the text. */
  datatype Source = Source(compose: string, provenance: Provenance, others: bool)

  datatype Materialization = Materialization(recipeId: string, service: Service, compose: string,
                                             provenance: Provenance)

  function ConfiguredService(services: seq<Service>, source: string): Option<Service> {
    if services == [] then None
    else if services[0].source == source then Some(services[0])
    else ConfiguredService(services[1..], source)
  }

  /** `configuredService`: the first with the source. */
  method FindConfigured(services: seq<Service>, source: string) returns (service: Option<Service>)
    ensures service == ConfiguredService(services, source)
    ensures service.Some? ==> service.value in services && service.value.source == source
    ensures service.None? ==> forall s :: s in services ==> s.source != source
  {
    for i := 0 to |services|
      invariant ConfiguredService(services, source) == ConfiguredService(services[i..], source)
      invariant forall k :: 0 <= k < i ==> services[k].source != source
    {
      assert services[i..][1..] == services[i + 1..];
      if services[i].source == source {
        return Some(services[i]);
      }
    }
    return None;
  }

  /** `sameServiceContract`, field by field and resource by resource. */
  method SameServiceContract(current: Service, next: Service) returns (same: bool)
    ensures same <==> current == next
  {
    if current.name != next.name || current.source != next.source || current.typ != next.typ
      || current.state != next.state
       || current.healthTimeout != next.healthTimeout || current.secretEnvFile != next.secretEnvFile
       || current.consistency != next.consistency || |current.data| != |next.data| {
      return false;
    }
    for i := 0 to |current.data|
      invariant forall k :: 0 <= k < i ==> current.data[k] == next.data[k]
    {
      if current.data[i] != next.data[i] {
        return false;
      }
    }
    assert current.data == next.data;
    return true;
  }

  /** `CheckDrift`: exactly the two generated files, the Compose text being the recorded one. */
  predicate Undrifted(source: Option<Source>, previous: Provenance) {
    source.Some? && !source.value.others && source.value.compose == previous.composeSum
  }

  ghost predicate Upgradable(services: seq<Service>, contained: bool, source: Option<Source>, previous: Provenance,
                             next: Materialization)
    requires ValidVersion(previous.version) && ValidVersion(next.provenance.version)
  {
    && previous.source == next.service.source && previous.recipeId == next.recipeId && contained
    && Undrifted(source, previous)
    && Compare(next.provenance.version, previous.version, 0) > 0
    && ConfiguredService(services, next.service.source) == Some(next.service)
    && previous.secretParameters == next.provenance.secretParameters
    && previous.secretFile == next.provenance.secretFile
  }

  method ValidateUpgrade(services: seq<Service>, contained: bool, source: Option<Source>, previous: Provenance,
                         next: Materialization)
    returns (ok: bool)
    requires ValidVersion(previous.version) && ValidVersion(next.provenance.version)
    ensures ok <==> Upgradable(services, contained, source, previous, next)
  {
    if previous.source != next.service.source || previous.recipeId != next.recipeId || !contained
      || !Undrifted(source, previous) {
      return false;
    }
    var order := CompareVersion(next.provenance.version, previous.version);
    var service := FindConfigured(services, next.service.source);
    if order <= 0 || service.None? {
      return false;
    }
    ok := SameServiceContract(service.value, next.service);
    ok := ok && previous.secretParameters == next.provenance.secretParameters
      && previous.secretFile == next.provenance.secretFile;
  }

  datatype Fault = NoFault | CannotStage | CannotMoveAside | CannotPublish(restored: bool) | CannotClean

  class Project {
    var source: Option<Source>
    var aside: Option<Source>

    constructor (source: Option<Source>)
      ensures this.source == source && aside == None
    {
      this.source, aside := source, None;
    }

    /**
     * `Upgrade`: the new source replaces the old one, or the old one is still there, in place or moved aside; its
     * last copy goes only once the new source is in place.
     */
    method Upgrade(services: seq<Service>, contained: bool, previous: Provenance, next: Materialization, fault: Fault)
      returns (ok: bool)
      requires ValidVersion(previous.version) && ValidVersion(next.provenance.version)
      modifies this
      ensures ok <==> old(aside).None? && fault.NoFault? && Upgradable(services, contained, old(source), previous, next)
      ensures ok ==> source == Some(Source(next.compose, next.provenance, false)) && aside == None
      ensures ok && previous == old(source).value.provenance && Records(next) ==>
                Upgrades(services, old(source).value, next, source.value)
      ensures !ok ==>
                || (source == old(source) && aside == old(aside))
                || (aside == old(source) && old(source).Some?
                    && (source == None || source == Some(Source(next.compose, next.provenance, false))))
      ensures !ok && source != old(source) ==> fault == CannotPublish(false) || fault == CannotClean
    {
      ok := ValidateUpgrade(services, contained, source, previous, next);
      if !ok || fault.CannotStage? || aside.Some? || fault.CannotMoveAside? {
        return false;
      }
      aside, source := source, None;
      if fault.CannotPublish? {
        if fault.restored {
          source, aside := aside, None;
        }
        return false;
      }
      source := Some(Source(next.compose, next.provenance, false));
      if fault.CannotClean? {
        return false;
      }
      aside := None;
    }
  }

  /** What `Materialize` writes into the provenance of what it generates. */
  predicate Records(step: Materialization) {
    && step.provenance.recipeId == step.recipeId && step.provenance.source == step.service.source
    && step.provenance.composeSum == step.compose
  }

  /** One successful upgrade under the provenance the old source carries. */
  ghost predicate Upgrades(services: seq<Service>, before: Source, step: Materialization, after: Source)
    requires ValidVersion(before.provenance.version) && ValidVersion(step.provenance.version)
  {
    && Records(step) && after == Source(step.compose, step.provenance, false)
    && Upgradable(services, true, Some(before), before.provenance, step)
  }

  /** Successful upgrades under one configuration, each starting from the source the one before it left. */
  ghost predicate Run(services: seq<Service>, history: seq<Source>, steps: seq<Materialization>) {
    && |history| == |steps| + 1 && (forall i :: 0 <= i < |history| ==> ValidVersion(history[i].provenance.version))
    && (forall i :: 0 <= i < |steps| ==> ValidVersion(steps[i].provenance.version))
    && forall i :: 0 <= i < |steps| ==> Upgrades(services, history[i], steps[i], history[i + 1])
  }

  /** What an upgrade never changes: the recipe, the source, and what is required of secrets. */
  predicate SameFixed(a: Provenance, b: Provenance) {
    a.recipeId == b.recipeId && a.source == b.source && a.secretParameters == b.secretParameters
      && a.secretFile == b.secretFile
  }

  /**
   * Along any run of upgrades versions strictly increase, so none comes back; the recipe, the secrets and the
   * service's whole contract stay the declared ones, and what is left behind has not drifted.
   */
  lemma {:induction false} UpgradesMoveForward(services: seq<Service>, history: seq<Source>,
                                               steps: seq<Materialization>,
                                               i: nat, j: nat)
    requires Run(services, history, steps) && i < j <= |steps|
    ensures var before, after := history[i].provenance, history[j].provenance;
            && Compare(after.version, before.version, 0) > 0 && after.version != before.version
            && SameFixed(after, before)
            && ConfiguredService(services, before.source) == Some(steps[j - 1].service)
            && Undrifted(Some(history[j]), after)
    decreases j
  {
    assert Upgrades(services, history[j - 1], steps[j - 1], history[j]);
    if i < j - 1 {
      UpgradesMoveForward(services, history, steps, i, j - 1);
    }
  }
}
