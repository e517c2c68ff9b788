/** `internal/backup/restore.go`: restoring a reviewed plan into empty destinations, service by service. */
module Restore {
  import opened Text
  import opened Snapshot
  import opened ServiceTrace
  import Create
  import Keyed
  import Repository

  type Deployment = Create.Deployment
  type Resource = Create.Resource

  datatype Probe = ProbeFailed | Probed(exists_: bool, empty: bool)

  /** The target's answers, as a function of everything done so far; placement and capacity come from gathered facts. */
  datatype World = World(
    placement: (Deployment, Resource) -> bool, capacity: (Deployment, Resource, int) -> bool,
    stops: (Trace, Deployment) -> bool, restarts: (Trace, Deployment) -> bool,
    probe: (Trace, Deployment, Resource) -> Probe, creates: (Trace, Deployment, Resource) -> bool,
    streams: (Trace, Deployment, Resource) -> bool)

  datatype PlannedResource = PlannedResource(name: string, destination: string, exists_: bool, empty: bool)

  datatype PlannedService = PlannedService(name: string, resources: seq<PlannedResource>)

  datatype RestorePlan = RestorePlan(snapshotId: string, snapshotDigest: Sum, services: seq<PlannedService>)

  /** A service of the snapshot, and the declared service it goes into. */
  datatype Selected = Selected(snapshot: ServiceManifest, deployment: Deployment)

  datatype Fact = Fact(running: bool, deployed: bool)

  // ---- selection

  function FindDeployment(deployments: seq<Deployment>, name: string): Option<Deployment> {
    Keyed.Find(deployments, (d: Deployment) => d.name, name)
  }

  function FindResource(data: seq<Resource>, name: string): Option<Resource> {
    Keyed.Find(data, (r: Resource) => r.name, name)
  }

  predicate Restorable(s: ServiceManifest, deployments: seq<Deployment>) {
    var d := FindDeployment(deployments, s.name);
    d.Some? && !d.value.absent && d.value.digest == Some(s.configurationDigest)
  }

  function Wanted(services: seq<ServiceManifest>, only: string): seq<ServiceManifest> {
    if services == [] then []
    else
      var last := services[|services| - 1];
      Wanted(services[..|services| - 1], only) + if only == "" || last.name == only then [last] else []
  }

  lemma {:induction false} WantedGrows(services: seq<ServiceManifest>, only: string, i: nat)
    requires i <= |services|
    ensures Wanted(services[..i], only) <= Wanted(services, only)
    decreases |services| - i
  {
    if i == |services| {
      assert services[..i] == services;
    } else {
      assert services[..i + 1][..i] == services[..i];
      WantedGrows(services, only, i + 1);
    }
  }

  /** `restoreServices`: every wanted service must be declared, active, and configured as it was when saved. */
  method SelectServices(services: seq<ServiceManifest>, deployments: seq<Deployment>, only: string)
    returns (selected: Option<seq<Selected>>)
    ensures selected.Some? <==>
              Wanted(services, only) != [] && forall s :: s in Wanted(services, only) ==> Restorable(s, deployments)
    ensures selected.Some? ==> Pairs(selected.value, Wanted(services, only), deployments)
  {
    var chosen: seq<Selected> := [];
    for i := 0 to |services|
      invariant Pairs(chosen, Wanted(services[..i], only), deployments)
      invariant forall s :: s in Wanted(services[..i], only) ==> Restorable(s, deployments)
    {
      assert services[..i + 1][..i] == services[..i];
      if only == "" || services[i].name == only {
        var d := FindDeployment(deployments, services[i].name);
        if d.None? || d.value.absent || d.value.digest != Some(services[i].configurationDigest) {
          WantedGrows(services, only, i + 1);
          assert Wanted(services[..i + 1], only)[|chosen|] == services[i];
          assert services[i] in Wanted(services, only) && !Restorable(services[i], deployments);
          return None;
        }
        chosen := chosen + [Selected(services[i], d.value)];
      }
    }
    assert services[..|services|] == services;
    return if chosen == [] then None else Some(chosen);
  }

  ghost predicate Pairs(selected: seq<Selected>, wanted: seq<ServiceManifest>, deployments: seq<Deployment>) {
    |selected| == |wanted| && forall i :: 0 <= i < |wanted| ==>
      selected[i].snapshot == wanted[i] && FindDeployment(deployments, wanted[i].name) == Some(selected[i].deployment)
  }

  /** A snapshot of a host's own services selects for restore on a host configured the same way. */
  lemma SavedIsRestorable(entry: ServiceManifest, d: Deployment, deployments: seq<Deployment>)
    requires Create.DistinctNames(deployments) && d in deployments && !d.absent && Create.Covers(entry, d)
    ensures Restorable(entry, deployments)
    ensures forall i :: 0 <= i < |d.data| ==> Create.Has(entry.resources, d.data[i])
  {
    var i :| 0 <= i < |deployments| && deployments[i] == d;
    var key := (d: Deployment) => d.name;
    assert forall i, j :: 0 <= i < j < |deployments| ==> key(deployments[i]) != key(deployments[j]);
    Keyed.FindEntry(deployments, key, i);
    FindAgrees(deployments, key, d.name);
  }

  lemma {:induction false} FindAgrees(deployments: seq<Deployment>, key: Deployment -> string, name: string)
    requires forall d: Deployment :: key(d) == d.name
    ensures FindDeployment(deployments, name) == Keyed.Find(deployments, key, name)
  {
    if deployments != [] {
      FindAgrees(deployments[1..], key, name);
    }
  }

  // ---- what a trace streamed, and into what

  function StreamsOf(trace: Trace): seq<(string, string)> {
    if trace == [] then []
    else
      var last := trace[|trace| - 1];
      StreamsOf(trace[..|trace| - 1]) + if last.Streamed? && last.ok then [(last.service, last.resource)] else []
  }

  /** Just observed: empty, or missing and then created. */
  ghost predicate JustSeenEmpty(before: Trace, service: string, resource: string) {
    var n := |before|;
    || (n >= 1 && before[n - 1] == Observed(service, resource, true, true))
    || (n >= 2 && before[n - 1] == Created(service, resource, true)
        && JustSeenMissing(before[..n - 1], service, resource))
  }

  ghost predicate Guarded(trace: Trace) {
    forall k :: 0 <= k < |trace| && trace[k].Streamed? ==>
      JustSeenEmpty(trace[..k], trace[k].service, trace[k].resource)
  }

  ghost predicate JustSeenMissing(before: Trace, service: string, resource: string) {
    before != [] && (
      var last := before[|before| - 1];
      last.Observed? && last.service == service && last.resource == resource && !last.exists_)
  }

  /** What holds of a restore run at every point. */
  ghost predicate Sound(trace: Trace, needs: set<string>, stranded: set<string>, stopped: set<string>) {
    Disciplined(trace, needs, stranded, stopped) && Guarded(trace)
  }

  /** Adds one event to the trace. */
  method Record(trace0: Trace, event: Event, ghost needs: set<string>, ghost stranded: set<string>,
                ghost stopped: set<string>)
    returns (trace: Trace)
    requires Sound(trace0, needs, stranded, stopped)
    requires event.Streamed? ==> JustSeenEmpty(trace0, event.service, event.resource)
    requires (event.Captured? || event.Streamed?) && event.service in needs ==> event.service in stopped
    requires event.Stopped? ==> stopped <= stranded && event.service in needs
    requires event.Restarted? ==> event.service in stopped
    ensures trace == trace0 + [event] && Sound(trace, needs, stranded, StoppedAfter(stopped, event))
    ensures AllOk(trace) <==> AllOk(trace0) && (event.Observed? || event.ok)
    ensures StopsOk(trace) <==> StopsOk(trace0) && (event.Stopped? ==> event.ok)
    ensures StopsOk(trace0) ==> FailedStopIsLast(trace)
    ensures StreamsOf(trace) ==
            StreamsOf(trace0) + if event.Streamed? && event.ok then [(event.service, event.resource)] else []
    ensures event.Observed? && event.exists_ && event.empty ==> JustSeenEmpty(trace, event.service, event.resource)
    ensures event.Observed? && !event.exists_ ==> JustSeenMissing(trace, event.service, event.resource)
    ensures event.Created? && event.ok && JustSeenMissing(trace0, event.service, event.resource) ==>
              JustSeenEmpty(trace, event.service, event.resource)
  {
    Extend(trace0, event, needs, stranded, stopped);
    trace := trace0 + [event];
    assert trace[..|trace0|] == trace0;
  }

  // ---- what each step answers to

  /** The step is about the service and went as the target answered at this point. */
  ghost predicate ProperEvent(before: Trace, event: Event, d: Deployment, world: World) {
    event.service == d.name &&
    match event
    case Stopped(_, ok) => ok == world.stops(before, d)
    case Observed(_, name, exists_, empty) =>
      exists r :: r in d.data && r.name == name && world.probe(before, d, r) == Probed(exists_, empty)
    case Created(_, name, ok) => exists r :: r in d.data && r.name == name && ok == world.creates(before, d, r)
    case Streamed(_, name, ok) => exists r :: r in d.data && r.name == name && ok == world.streams(before, d, r)
    case Restarted(_, ok) => ok == world.restarts(before, d)
    case _ => false
  }

  ghost predicate ProperFrom(trace: Trace, from: nat, d: Deployment, world: World) {
    forall k :: from <= k < |trace| ==> ProperEvent(trace[..k], trace[k], d, world)
  }

  lemma ProperOneMore(trace: Trace, event: Event, from: nat, d: Deployment, world: World)
    requires ProperFrom(trace, from, d, world) && ProperEvent(trace, event, d, world)
    ensures ProperFrom(trace + [event], from, d, world)
  {
    var after := trace + [event];
    assert after[..|trace|] == trace;
    forall k | from <= k < |trace|
      ensures ProperEvent(after[..k], after[k], d, world)
    {
      assert after[..k] == trace[..k];
    }
  }

  lemma ProperAfter(earlier: Trace, trace: Trace, from: nat, d: Deployment, world: World)
    requires earlier <= trace && from <= |earlier|
    requires ProperFrom(earlier, from, d, world) && ProperFrom(trace, |earlier|, d, world)
    ensures ProperFrom(trace, from, d, world)
  {
    forall k | from <= k < |earlier|
      ensures ProperEvent(trace[..k], trace[k], d, world)
    {
      assert trace[..k] == earlier[..k] && trace[k] == earlier[k];
    }
  }

  // ---- one resource

  function FindPlanned(reviewed: RestorePlan, service: string): Option<PlannedService> {
    Keyed.Find(reviewed.services, (s: PlannedService) => s.name, service)
  }

  function FindPlannedResource(service: PlannedService, name: string): Option<PlannedResource> {
    Keyed.Find(service.resources, (r: PlannedResource) => r.name, name)
  }

  /** `OpenArchive`: a regular file of the snapshot under the clean form of the archive path. */
  predicate CanOpen(snapshot: Dir, source: ResourceManifest) {
    var path := SafeArchivePath(source.archive);
    path.Some? && path.value in snapshot && snapshot[path.value].File?
  }

  /** The destination is in the state that was reviewed, and that state is missing or empty. */
  predicate AsReviewed(planned: Option<PlannedResource>, r: Resource, probe: Probe) {
    && probe.Probed? && planned.Some? && planned.value.destination == r.destination
    && planned.value.exists_ == probe.exists_ && planned.value.empty == probe.empty
    && (probe.exists_ ==> probe.empty)
  }

  lemma FoundResource(data: seq<Resource>, name: string)
    ensures var r := FindResource(data, name); r.Some? ==> r.value in data && r.value.name == name
  {
    Keyed.FindWitness(data, (r: Resource) => r.name, name);
  }

  method OpenArchive(snapshot: Dir, source: ResourceManifest) returns (ok: bool)
    ensures ok <==> CanOpen(snapshot, source)
  {
    var path := SafeArchivePath(source.archive);
    if path.None? || path.value !in snapshot {
      return false;
    }
    return snapshot[path.value].File?;
  }

  /** Some point of the run, seen from which the resource is not to be restored. */
  ghost predicate ResourceRefused(d: Deployment, source: ResourceManifest, planned: PlannedService, snapshot: Dir,
                                  world: World, trace: Trace)
  {
    var r := FindResource(d.data, source.name);
    || r.None? || r.value.typ != source.typ || r.value.typ.UnknownType? || !CanOpen(snapshot, source)
    || exists k :: 0 <= k <= |trace|
         && !AsReviewed(FindPlannedResource(planned, source.name), r.value, world.probe(trace[..k], d, r.value))
  }

  lemma StillRefused(d: Deployment, source: ResourceManifest, planned: PlannedService, snapshot: Dir, world: World,
                     trace: Trace, later: Trace)
    requires ResourceRefused(d, source, planned, snapshot, world, trace) && trace <= later
    ensures ResourceRefused(d, source, planned, snapshot, world, later)
  {
    assert forall k :: 0 <= k <= |trace| ==> later[..k] == trace[..k];
  }

  lemma SeenRefused(d: Deployment, source: ResourceManifest, planned: PlannedService, snapshot: Dir, world: World,
                    trace: Trace, later: Trace)
    requires trace <= later
    requires var r := FindResource(d.data, source.name);
             r.Some? && !AsReviewed(FindPlannedResource(planned, source.name), r.value, world.probe(trace, d, r.value))
    ensures ResourceRefused(d, source, planned, snapshot, world, later)
  {
    assert later[..|trace|] == trace;
  }

  method RestoreResource(d: Deployment, source: ResourceManifest, planned: PlannedService, snapshot: Dir, world: World,
                         trace0: Trace, ghost needs: set<string>, ghost stranded: set<string>,
                         ghost stopped: set<string>)
    returns (ok: bool, trace: Trace)
    requires Sound(trace0, needs, stranded, stopped) && (d.name in needs ==> d.name in stopped)
    ensures Sound(trace, needs, stranded, stopped) && (StopsOk(trace0) ==> StopsOk(trace)) && trace0 <= trace
    ensures ProperFrom(trace, |trace0|, d, world)
    ensures StreamsOf(trace) == StreamsOf(trace0) + if ok then [(d.name, source.name)] else []
    ensures ok ==> (AllOk(trace0) ==> AllOk(trace))
    ensures ok ==>
              var r := FindResource(d.data, source.name);
              && r.Some? && r.value.typ == source.typ && CanOpen(snapshot, source)
              && AsReviewed(FindPlannedResource(planned, source.name), r.value, world.probe(trace0, d, r.value))
    ensures !ok && AllOk(trace) ==> ResourceRefused(d, source, planned, snapshot, world, trace)
  {
    trace, ok := trace0, false;
    var r := FindResource(d.data, source.name);
    if r.None? || r.value.typ != source.typ || r.value.typ.UnknownType? {
      return;
    }
    FoundResource(d.data, source.name);
    var state := world.probe(trace, d, r.value);
    if state.ProbeFailed? {
      SeenRefused(d, source, planned, snapshot, world, trace0, trace);
      return;
    }
    var review := FindPlannedResource(planned, source.name);
    var asReviewed := true;
    if review.None? || review.value.destination != r.value.destination || review.value.exists_ != state.exists_
      || review.value.empty != state.empty {
      asReviewed := false;
    } else if state.exists_ && !state.empty {
      asReviewed := false;
    }
    ok, trace := Prepare(d, r.value, source.name, state, asReviewed, world, trace, needs, stranded, stopped);
    var opens := OpenArchive(snapshot, source);
    if !ok || !opens {
      if !asReviewed {
        SeenRefused(d, source, planned, snapshot, world, trace0, trace);
      }
      return false, trace;
    }
    ok := world.streams(trace, d, r.value);
    ProperOneMore(trace, Streamed(d.name, source.name, ok), |trace0|, d, world);
    trace := Record(trace, Streamed(d.name, source.name, ok), needs, stranded, stopped);
  }

  /** Records what was seen and, when it is as reviewed, creates a missing destination. */
  method Prepare(d: Deployment, r: Resource, name: string, state: Probe, asReviewed: bool, world: World,
                 trace0: Trace, ghost needs: set<string>, ghost stranded: set<string>, ghost stopped: set<string>)
    returns (ok: bool, trace: Trace)
    requires Sound(trace0, needs, stranded, stopped) && state.Probed?
    requires asReviewed && state.exists_ ==> state.empty
    requires r in d.data && r.name == name && state == world.probe(trace0, d, r)
    ensures ProperFrom(trace, |trace0|, d, world)
    ensures Sound(trace, needs, stranded, stopped) && StreamsOf(trace) == StreamsOf(trace0) && trace0 <= trace
    ensures StopsOk(trace0) ==> StopsOk(trace)
    ensures ok ==> asReviewed && JustSeenEmpty(trace, d.name, name)
    ensures ok ==> (AllOk(trace0) ==> AllOk(trace))
    ensures !ok && AllOk(trace) ==> !asReviewed
  {
    trace := Record(trace0, Observed(d.name, name, state.exists_, state.empty), needs, stranded, stopped);
    ProperOneMore(trace0, Observed(d.name, name, state.exists_, state.empty), |trace0|, d, world);
    ok := asReviewed;
    if ok && !state.exists_ {
      ok := world.creates(trace, d, r);
      ProperOneMore(trace, Created(d.name, name, ok), |trace0|, d, world);
      trace := Record(trace, Created(d.name, name, ok), needs, stranded, stopped);
    }
  }

  function Expected(service: string, resources: seq<ResourceManifest>): (streams: seq<(string, string)>)
    ensures |streams| == |resources|
  {
    seq(|resources|, i requires 0 <= i < |resources| => (service, resources[i].name))
  }

  lemma ExpectedOneMore(service: string, resources: seq<ResourceManifest>, i: nat)
    requires i < |resources|
    ensures Expected(service, resources[..i + 1]) == Expected(service, resources[..i]) + [(service, resources[i].name)]
    ensures Expected(service, resources[..i]) <= Expected(service, resources)
  {
  }

  /** Why a service is not restored although no step failed. */
  ghost predicate ServiceRefused(s: Selected, reviewed: RestorePlan, snapshot: Dir, world: World, trace: Trace) {
    var planned := FindPlanned(reviewed, s.deployment.name);
    || (exists i :: 0 <= i < |s.deployment.data| && !Placeable(s, s.deployment.data[i], reviewed, world))
    || planned.None?
    || exists i :: 0 <= i < |s.snapshot.resources|
         && ResourceRefused(s.deployment, s.snapshot.resources[i], planned.value, snapshot, world, trace)
  }

  /**
   * What became of a service: the steps taken, streams in manifest order up to where it stopped, all of them and no
   * failed step on success, and otherwise a failed step or a refusal.
   */
  ghost predicate Outcome(s: Selected, reviewed: RestorePlan, snapshot: Dir, world: World, before: Trace, ok: bool,
                          trace: Trace)
  {
    var expected := Expected(s.deployment.name, s.snapshot.resources);
    && before <= trace && ProperFrom(trace, |before|, s.deployment, world)
    && StreamsOf(before) <= StreamsOf(trace) <= StreamsOf(before) + expected
    && (ok ==> StreamsOf(trace) == StreamsOf(before) + expected && (AllOk(before) ==> AllOk(trace)))
    && (!ok && AllOk(trace) ==> ServiceRefused(s, reviewed, snapshot, world, trace))
  }

  lemma ServiceStillRefused(s: Selected, reviewed: RestorePlan, snapshot: Dir, world: World, trace: Trace,
                            later: Trace)
    requires ServiceRefused(s, reviewed, snapshot, world, trace) && trace <= later
    ensures ServiceRefused(s, reviewed, snapshot, world, later)
  {
    var planned := FindPlanned(reviewed, s.deployment.name);
    if planned.Some? {
      forall i | 0 <= i < |s.snapshot.resources|
                 && ResourceRefused(s.deployment, s.snapshot.resources[i], planned.value, snapshot, world, trace)
        ensures ResourceRefused(s.deployment, s.snapshot.resources[i], planned.value, snapshot, world, later)
      {
        StillRefused(s.deployment, s.snapshot.resources[i], planned.value, snapshot, world, trace, later);
      }
    }
  }

  /** `restoreServiceResources`: the resources of one service in manifest order, until one fails. */
  method RestoreResources(s: Selected, reviewed: RestorePlan, snapshot: Dir, world: World,
                          trace0: Trace, ghost needs: set<string>, ghost stranded: set<string>,
                          ghost stopped: set<string>)
    returns (ok: bool, trace: Trace)
    requires Sound(trace0, needs, stranded, stopped) && (s.deployment.name in needs ==> s.deployment.name in stopped)
    ensures Sound(trace, needs, stranded, stopped) && (StopsOk(trace0) ==> StopsOk(trace))
    ensures Outcome(s, reviewed, snapshot, world, trace0, ok, trace)
  {
    trace, ok := trace0, false;
    var planned := FindPlanned(reviewed, s.deployment.name);
    if planned.None? {
      return;
    }
    Unstarted(s, world, trace0);
    for i := 0 to |s.snapshot.resources|
      invariant Sound(trace, needs, stranded, stopped) && (StopsOk(trace0) ==> StopsOk(trace))
      invariant RestoredFirst(s, i, world, trace0, trace)
    {
      ghost var before := trace;
      ok, trace := RestoreResource(s.deployment, s.snapshot.resources[i], planned.value, snapshot, world, trace, needs,
                                   stranded, stopped);
      NextResource(s, i, reviewed, snapshot, world, trace0, before, ok, trace);
      if !ok {
        return;
      }
    }
    assert s.snapshot.resources[..|s.snapshot.resources|] == s.snapshot.resources;
    ok := true;
  }

  /** The first `i` resources of the service are restored. */
  ghost predicate RestoredFirst(s: Selected, i: nat, world: World, before: Trace, trace: Trace)
    requires i <= |s.snapshot.resources|
  {
    && before <= trace && ProperFrom(trace, |before|, s.deployment, world)
    && StreamsOf(trace) == StreamsOf(before) + Expected(s.deployment.name, s.snapshot.resources[..i])
    && (AllOk(before) ==> AllOk(trace))
  }

  lemma Unstarted(s: Selected, world: World, trace: Trace)
    ensures RestoredFirst(s, 0, world, trace, trace)
  {
    assert Expected(s.deployment.name, s.snapshot.resources[..0]) == [];
  }

  lemma NextResource(s: Selected, i: nat, reviewed: RestorePlan, snapshot: Dir, world: World, trace0: Trace,
                     before: Trace, ok: bool, trace: Trace)
    requires i < |s.snapshot.resources| && RestoredFirst(s, i, world, trace0, before)
    requires before <= trace && ProperFrom(trace, |before|, s.deployment, world)
    requires StreamsOf(trace) == StreamsOf(before)
                                 + if ok then [(s.deployment.name, s.snapshot.resources[i].name)] else []
    requires ok ==> (AllOk(before) ==> AllOk(trace))
    requires FindPlanned(reviewed, s.deployment.name).Some?
    requires !ok && AllOk(trace) ==>
               ResourceRefused(s.deployment, s.snapshot.resources[i], FindPlanned(reviewed, s.deployment.name).value,
                               snapshot, world, trace)
    ensures ok ==> RestoredFirst(s, i + 1, world, trace0, trace)
    ensures !ok ==> Outcome(s, reviewed, snapshot, world, trace0, false, trace)
  {
    ProperAfter(before, trace, |trace0|, s.deployment, world);
    ExpectedOneMore(s.deployment.name, s.snapshot.resources, i);
  }

  // ---- one service, and all of them

  /** Placed resources need a snapshot counterpart, a ready placement and, where planned, enough room. */
  method CheckPlacement(s: Selected, reviewed: RestorePlan, world: World) returns (ok: bool)
    ensures ok <==> forall i :: 0 <= i < |s.deployment.data| ==> Placeable(s, s.deployment.data[i], reviewed, world)
  {
    for i := 0 to |s.deployment.data|
      invariant forall k :: 0 <= k < i ==> Placeable(s, s.deployment.data[k], reviewed, world)
    {
      var r := s.deployment.data[i];
      if !r.placed {
        continue;
      }
      var source := Keyed.Find(s.snapshot.resources, (m: ResourceManifest) => m.name, r.name);
      if source.None? || !world.placement(s.deployment, r) {
        assert !Placeable(s, r, reviewed, world);
        return false;
      }
      var planned := Plans(reviewed, s.deployment.name, r.name);
      if planned && !world.capacity(s.deployment, r, source.value.uncompressedSize) {
        assert !Placeable(s, r, reviewed, world);
        return false;
      }
    }
    return true;
  }

  /** The nested loops over the plan's services and resources. */
  method Plans(reviewed: RestorePlan, service: string, resource: string) returns (found: bool)
    ensures found <==> IsPlanned(reviewed, service, resource)
  {
    for i := 0 to |reviewed.services|
      invariant forall a, b :: 0 <= a < i && 0 <= b < |reviewed.services[a].resources| ==>
                  !(reviewed.services[a].name == service && reviewed.services[a].resources[b].name == resource)
    {
      if reviewed.services[i].name == service {
        for k := 0 to |reviewed.services[i].resources|
          invariant forall b :: 0 <= b < k ==> reviewed.services[i].resources[b].name != resource
        {
          if reviewed.services[i].resources[k].name == resource {
            return true;
          }
        }
      }
    }
    return false;
  }

  predicate Placeable(s: Selected, r: Resource, reviewed: RestorePlan, world: World) {
    !r.placed || (
      var source := Keyed.Find(s.snapshot.resources, (m: ResourceManifest) => m.name, r.name);
      && source.Some? && world.placement(s.deployment, r)
      && (IsPlanned(reviewed, s.deployment.name, r.name) ==>
          world.capacity(s.deployment, r, source.value.uncompressedSize)))
  }

  predicate IsPlanned(reviewed: RestorePlan, service: string, resource: string) {
    exists i, k :: 0 <= i < |reviewed.services| && 0 <= k < |reviewed.services[i].resources|
                   && reviewed.services[i].name == service && reviewed.services[i].resources[k].name == resource
  }

  /**
   * One service: stopped if it runs, restored, and restarted if it was stopped and Bebop had deployed it. A running
   * service without a deployment stays down.
   */
  method RestoreService(s: Selected, fact: Fact, reviewed: RestorePlan, snapshot: Dir, world: World,
                        trace0: Trace, ghost needs: set<string>, ghost stranded: set<string>,
                        ghost stopped0: set<string>)
    returns (ok: bool, trace: Trace, ghost stopped: set<string>)
    requires Sound(trace0, needs, stranded, stopped0) && stopped0 <= stranded && s.deployment.name !in stopped0
    requires s.deployment.name in needs <==> fact.running
    requires s.deployment.name in stranded <==> fact.running && !fact.deployed
    ensures Sound(trace, needs, stranded, stopped) && stopped0 <= stopped <= stranded
            && stopped <= stopped0 + {s.deployment.name}
    ensures ok ==> stopped == stopped0 + if fact.running && !fact.deployed then {s.deployment.name} else {}
    ensures StopsOk(trace0) ==> FailedStopIsLast(trace)
    ensures Outcome(s, reviewed, snapshot, world, trace0, ok, trace)
  {
    trace, stopped := trace0, stopped0;
    ok := CheckPlacement(s, reviewed, world);
    if !ok {
      return;
    }
    if fact.running {
      ok, trace, stopped := RestoreRunning(s, fact.deployed, reviewed, snapshot, world, trace0, needs, stranded,
                                           stopped0);
    } else {
      ok, trace := RestoreResources(s, reviewed, snapshot, world, trace0, needs, stranded, stopped0);
    }
  }

  /** A running service is stopped first. */
  method RestoreRunning(s: Selected, deployed: bool, reviewed: RestorePlan, snapshot: Dir, world: World,
                        trace0: Trace, ghost needs: set<string>, ghost stranded: set<string>,
                        ghost stopped0: set<string>)
    returns (ok: bool, trace: Trace, ghost stopped: set<string>)
    requires Sound(trace0, needs, stranded, stopped0) && stopped0 <= stranded && s.deployment.name !in stopped0
    requires s.deployment.name in needs && (s.deployment.name in stranded <==> !deployed)
    ensures Sound(trace, needs, stranded, stopped) && stopped0 <= stopped <= stranded
            && stopped <= stopped0 + {s.deployment.name}
    ensures ok ==> stopped == stopped0 + if !deployed then {s.deployment.name} else {}
    ensures StopsOk(trace0) ==> FailedStopIsLast(trace)
    ensures Outcome(s, reviewed, snapshot, world, trace0, ok, trace)
  {
    stopped := stopped0;
    ok, trace := Stop(s.deployment, world, trace0, needs, stranded, stopped0);
    if !ok {
      FailedStop(s, reviewed, snapshot, world, trace0);
      return;
    }
    ghost var before := trace;
    if deployed {
      ok, trace := RestoreThenRestart(s, reviewed, snapshot, world, trace, needs, stranded, stopped0);
    } else {
      stopped := stopped0 + {s.deployment.name};
      ok, trace := RestoreResources(s, reviewed, snapshot, world, trace, needs, stranded, stopped);
    }
    OutcomeAfterStop(s, reviewed, snapshot, world, trace0, before, ok, trace);
  }

  lemma FailedStop(s: Selected, reviewed: RestorePlan, snapshot: Dir, world: World, trace: Trace)
    requires !world.stops(trace, s.deployment)
    ensures Outcome(s, reviewed, snapshot, world, trace, false, trace + [Stopped(s.deployment.name, false)])
  {
    var after := trace + [Stopped(s.deployment.name, false)];
    ProperOneMore(trace, Stopped(s.deployment.name, false), |trace|, s.deployment, world);
    assert after[|trace|] == Stopped(s.deployment.name, false) && after[..|trace|] == trace;
  }

  lemma OutcomeAfterStop(s: Selected, reviewed: RestorePlan, snapshot: Dir, world: World, trace0: Trace,
                         before: Trace, ok: bool, trace: Trace)
    requires before == trace0 + [Stopped(s.deployment.name, true)] && world.stops(trace0, s.deployment)
    requires Outcome(s, reviewed, snapshot, world, before, ok, trace)
    ensures Outcome(s, reviewed, snapshot, world, trace0, ok, trace)
  {
    ProperOneMore(trace0, Stopped(s.deployment.name, true), |trace0|, s.deployment, world);
    ProperAfter(before, trace, |trace0|, s.deployment, world);
    assert before[..|trace0|] == trace0;
  }

  /** A stopped service is restarted whether or not its resources were restored. */
  method RestoreThenRestart(s: Selected, reviewed: RestorePlan, snapshot: Dir, world: World, trace0: Trace,
                            ghost needs: set<string>, ghost stranded: set<string>, ghost stopped: set<string>)
    returns (ok: bool, trace: Trace)
    requires Sound(trace0, needs, stranded, stopped + {s.deployment.name}) && s.deployment.name !in stopped
    ensures Sound(trace, needs, stranded, stopped) && (StopsOk(trace0) ==> StopsOk(trace))
    ensures trace != [] && trace[|trace| - 1].Restarted? && trace[|trace| - 1].service == s.deployment.name
    ensures Outcome(s, reviewed, snapshot, world, trace0, ok, trace)
  {
    ok, trace := RestoreResources(s, reviewed, snapshot, world, trace0, needs, stranded,
                                  stopped + {s.deployment.name});
    ghost var before, restored := trace, ok;
    var restarted;
    restarted, trace := Restart(s.deployment, world, trace, needs, stranded, stopped);
    ok := ok && restarted;
    OutcomeAfterRestart(s, reviewed, snapshot, world, trace0, before, restored, restarted);
  }

  lemma OutcomeAfterRestart(s: Selected, reviewed: RestorePlan, snapshot: Dir, world: World, trace0: Trace,
                            trace: Trace, ok: bool, restarted: bool)
    requires Outcome(s, reviewed, snapshot, world, trace0, ok, trace)
    requires restarted == world.restarts(trace, s.deployment)
    ensures Outcome(s, reviewed, snapshot, world, trace0, ok && restarted,
                    trace + [Restarted(s.deployment.name, restarted)])
  {
    var event := Restarted(s.deployment.name, restarted);
    var after := trace + [event];
    assert after[|trace|] == event && after[..|trace|] == trace;
    ProperOneMore(trace, event, |trace0|, s.deployment, world);
    if !ok && AllOk(after) {
      EarlierOk(trace, after);
      ServiceStillRefused(s, reviewed, snapshot, world, trace, after);
    }
  }

  lemma EarlierOk(trace: Trace, later: Trace)
    requires trace <= later && AllOk(later)
    ensures AllOk(trace)
  {
    assert forall k :: 0 <= k < |trace| ==> trace[k] == later[k];
  }

  method Stop(d: Deployment, world: World, trace0: Trace,
              ghost needs: set<string>, ghost stranded: set<string>, ghost stopped: set<string>)
    returns (ok: bool, trace: Trace)
    requires Sound(trace0, needs, stranded, stopped) && stopped <= stranded && d.name in needs
    ensures Sound(trace, needs, stranded, if ok then stopped + {d.name} else stopped)
    ensures trace == trace0 + [Stopped(d.name, ok)] && ok == world.stops(trace0, d)
    ensures StopsOk(trace0) ==> FailedStopIsLast(trace) && (ok ==> StopsOk(trace))
    ensures StreamsOf(trace) == StreamsOf(trace0) && (ok && AllOk(trace0) ==> AllOk(trace))
  {
    ok := world.stops(trace0, d);
    trace := Record(trace0, Stopped(d.name, ok), needs, stranded, stopped);
  }

  method Restart(d: Deployment, world: World, trace0: Trace,
                 ghost needs: set<string>, ghost stranded: set<string>, ghost stopped: set<string>)
    returns (ok: bool, trace: Trace)
    requires Sound(trace0, needs, stranded, stopped + {d.name}) && d.name !in stopped
    ensures trace == trace0 + [Restarted(d.name, ok)] && ok == world.restarts(trace0, d)
    ensures Sound(trace, needs, stranded, stopped) && (StopsOk(trace0) ==> StopsOk(trace))
    ensures StreamsOf(trace) == StreamsOf(trace0) && (ok && AllOk(trace0) ==> AllOk(trace))
  {
    ok := world.restarts(trace0, d);
    trace := Record(trace0, Restarted(d.name, ok), needs, stranded, stopped + {d.name});
    assert stopped + {d.name} - {d.name} == stopped;
  }

  ghost function Running(selected: seq<Selected>, facts: string -> Fact): set<string> {
    set s | s in selected && facts(s.deployment.name).running :: s.deployment.name
  }

  ghost function Stranded(selected: seq<Selected>, facts: string -> Fact): set<string> {
    set s | s in selected && facts(s.deployment.name).running && !facts(s.deployment.name).deployed :: s.deployment.name
  }

  ghost function AllExpected(selected: seq<Selected>): seq<(string, string)> {
    if selected == [] then []
    else
      var last := selected[|selected| - 1];
      AllExpected(selected[..|selected| - 1]) + Expected(last.deployment.name, last.snapshot.resources)
  }

  lemma {:induction false} ExpectedGrows(selected: seq<Selected>, i: nat)
    requires i <= |selected|
    ensures AllExpected(selected[..i]) <= AllExpected(selected)
    decreases |selected| - i
  {
    if i == |selected| {
      assert selected[..i] == selected;
    } else {
      assert selected[..i + 1][..i] == selected[..i];
      ExpectedGrows(selected, i + 1);
    }
  }

  ghost predicate DistinctSelected(selected: seq<Selected>) {
    forall i, j :: 0 <= i < j < |selected| ==> selected[i].deployment.name != selected[j].deployment.name
  }

  /** The first `i` services are restored, and those of them that no one restarts are down. */
  ghost predicate RestoredSoFar(selected: seq<Selected>, facts: string -> Fact, i: nat, trace: Trace,
                                stopped: set<string>)
    requires i <= |selected|
  {
    && Sound(trace, Running(selected, facts), Stranded(selected, facts), stopped)
    && stopped <= Stranded(selected, facts)
    && (forall k :: i <= k < |selected| ==> selected[k].deployment.name !in stopped)
    && (forall k :: 0 <= k < i && selected[k].deployment.name in Stranded(selected, facts) ==>
          selected[k].deployment.name in stopped)
    && StreamsOf(trace) == AllExpected(selected[..i]) && AllOk(trace)
  }

  lemma SelectedFacts(selected: seq<Selected>, facts: string -> Fact, i: nat)
    requires i < |selected|
    ensures var name := selected[i].deployment.name;
            && (name in Running(selected, facts) <==> facts(name).running)
            && (name in Stranded(selected, facts) <==> facts(name).running && !facts(name).deployed)
  {
    assert selected[i] in selected;
  }

  method RestoreNext(selected: seq<Selected>, facts: string -> Fact, i: nat, reviewed: RestorePlan, snapshot: Dir,
                     world: World, trace0: Trace, ghost stopped0: set<string>)
    returns (ok: bool, trace: Trace, ghost stopped: set<string>)
    requires i < |selected| && DistinctSelected(selected) && RestoredSoFar(selected, facts, i, trace0, stopped0)
    ensures ok ==> RestoredSoFar(selected, facts, i + 1, trace, stopped)
    ensures Sound(trace, Running(selected, facts), Stranded(selected, facts), stopped)
    ensures stopped <= Stranded(selected, facts) && FailedStopIsLast(trace)
    ensures !ok && AllOk(trace) ==> ServiceRefused(selected[i], reviewed, snapshot, world, trace)
    ensures StreamsOf(trace) <= AllExpected(selected)
    ensures trace0 <= trace && ProperFrom(trace, |trace0|, selected[i].deployment, world)
  {
    var name := selected[i].deployment.name;
    SelectedFacts(selected, facts, i);
    ok, trace, stopped := RestoreService(selected[i], facts(name), reviewed, snapshot, world, trace0,
                                         Running(selected, facts), Stranded(selected, facts), stopped0);
    assert selected[..i + 1][..i] == selected[..i];
    ExpectedGrows(selected, i + 1);
  }

  /** Every step was one of a selected service and went as the target answered. */
  ghost predicate EachProper(trace: Trace, selected: seq<Selected>, world: World) {
    forall k :: 0 <= k < |trace| ==> ProperForSome(trace[..k], trace[k], selected, world)
  }

  ghost predicate ProperForSome(before: Trace, event: Event, selected: seq<Selected>, world: World) {
    exists i :: 0 <= i < |selected| && ProperEvent(before, event, selected[i].deployment, world)
  }

  lemma ServiceProper(trace: Trace, selected: seq<Selected>, world: World, later: Trace, i: nat)
    requires EachProper(trace, selected, world) && trace <= later && i < |selected|
    requires ProperFrom(later, |trace|, selected[i].deployment, world)
    ensures EachProper(later, selected, world)
  {
    forall k | 0 <= k < |later|
      ensures ProperForSome(later[..k], later[k], selected, world)
    {
      if k < |trace| {
        assert later[..k] == trace[..k] && later[k] == trace[k];
      } else {
        assert ProperEvent(later[..k], later[k], selected[i].deployment, world);
      }
    }
  }

  ghost predicate SomeRefused(selected: seq<Selected>, reviewed: RestorePlan, snapshot: Dir, world: World,
                              trace: Trace)
  {
    exists i :: 0 <= i < |selected| && ServiceRefused(selected[i], reviewed, snapshot, world, trace)
  }

  /** Every selected service in turn. */
  method RestoreAll(selected: seq<Selected>, facts: string -> Fact, reviewed: RestorePlan, snapshot: Dir, world: World)
    returns (ok: bool, trace: Trace)
    requires DistinctSelected(selected)
    ensures WorkedWhileDown(trace, Running(selected, facts)) && OneDownAtATime(trace, Stranded(selected, facts))
            && Guarded(trace) && StopsNeeded(trace, Running(selected, facts))
    ensures FailedStopIsLast(trace)
    ensures forall s :: Down(trace, s) ==> s in Stranded(selected, facts)
    ensures ok ==> forall s :: s in Stranded(selected, facts) ==> Down(trace, s)
    ensures StreamsOf(trace) <= AllExpected(selected)
    ensures ok ==> StreamsOf(trace) == AllExpected(selected) && AllOk(trace)
    ensures !ok && AllOk(trace) ==> SomeRefused(selected, reviewed, snapshot, world, trace)
    ensures EachProper(trace, selected, world)
  {
    ok, trace := true, [];
    ghost var stopped: set<string> := {};
    for i := 0 to |selected|
      invariant RestoredSoFar(selected, facts, i, trace, stopped) && EachProper(trace, selected, world)
    {
      ghost var before := trace;
      ok, trace, stopped := RestoreNext(selected, facts, i, reviewed, snapshot, world, trace, stopped);
      ServiceProper(before, selected, world, trace, i);
      if !ok {
        return;
      }
    }
    assert selected[..|selected|] == selected;
    ok := true;
  }

  /** `ApplyRestore`: the snapshot is verified again, matched with the review, and restored under the lock. */
  method ApplyRestore(repository: Repository.Repository, reviewed: RestorePlan, deployments: seq<Deployment>,
                      only: string, facts: string -> Fact, admitted: bool, world: World)
    returns (ok: bool, trace: Trace, ghost selected: seq<Selected>)
    requires Create.DistinctNames(deployments)
    ensures trace != [] || ok ==>
              && admitted && Repository.Verified(repository.completed, reviewed.snapshotId).Some?
              && var m := Repository.Verified(repository.completed, reviewed.snapshotId).value;
                 m.digest == reviewed.snapshotDigest && Pairs(selected, Wanted(m.services, only), deployments)
    ensures WorkedWhileDown(trace, Running(selected, facts)) && OneDownAtATime(trace, Stranded(selected, facts))
            && Guarded(trace) && StopsNeeded(trace, Running(selected, facts))
    ensures FailedStopIsLast(trace)
    ensures forall s :: Down(trace, s) ==> s in Stranded(selected, facts)
    ensures ok ==> forall s :: s in Stranded(selected, facts) ==> Down(trace, s)
    ensures StreamsOf(trace) <= AllExpected(selected)
    ensures ok ==> StreamsOf(trace) == AllExpected(selected) && AllOk(trace)
    ensures EachProper(trace, selected, world)
    ensures !ok && AllOk(trace) ==>
              var m := Repository.Verified(repository.completed, reviewed.snapshotId);
              || !admitted || m.None? || m.value.digest != reviewed.snapshotDigest
              || Wanted(m.value.services, only) == []
              || (exists s :: s in Wanted(m.value.services, only) && !Restorable(s, deployments))
              || SomeRefused(selected, reviewed, repository.completed[reviewed.snapshotId], world, trace)
  {
    ok, trace, selected := false, [], [];
    var m := repository.Verify(reviewed.snapshotId);
    if !admitted || m.None? || m.value.digest != reviewed.snapshotDigest {
      return;
    }
    var chosen := SelectServices(m.value.services, deployments, only);
    if chosen.None? {
      return;
    }
    selected := chosen.value;
    WantedDistinct(m.value.services, only);
    PairsDistinct(selected, Wanted(m.value.services, only), deployments);
    ok, trace := RestoreAll(chosen.value, facts, reviewed, repository.completed[reviewed.snapshotId], world);
  }

  lemma {:induction false} OrderedDistinct(services: seq<ServiceManifest>)
    requires forall i :: 0 < i < |services| ==> Less(services[i - 1].name, services[i].name)
    ensures forall i, j :: 0 <= i < j < |services| ==> Less(services[i].name, services[j].name)
  {
    if |services| > 1 {
      var n := |services| - 1;
      OrderedDistinct(services[..n]);
      forall i | 0 <= i < n
        ensures Less(services[i].name, services[n].name)
      {
        if i < n - 1 {
          assert services[..n][i] == services[i] && services[..n][n - 1] == services[n - 1];
          LessTransitive(services[i].name, services[n - 1].name, services[n].name);
        }
      }
    }
  }

  lemma WantedDistinct(services: seq<ServiceManifest>, only: string)
    requires forall i :: 0 < i < |services| ==> Less(services[i - 1].name, services[i].name)
    ensures forall i, j :: 0 <= i < j < |Wanted(services, only)| ==>
              Wanted(services, only)[i].name != Wanted(services, only)[j].name
  {
    OrderedDistinct(services);
    WantedKeepsNames(services, only);
  }

  lemma {:induction false} WantedKeepsNames(services: seq<ServiceManifest>, only: string)
    requires forall i, j :: 0 <= i < j < |services| ==> Less(services[i].name, services[j].name)
    ensures forall i, j :: 0 <= i < j < |Wanted(services, only)| ==>
              Wanted(services, only)[i].name != Wanted(services, only)[j].name
    ensures forall s :: s in Wanted(services, only) ==> s in services
  {
    if services != [] {
      var n := |services| - 1;
      WantedKeepsNames(services[..n], only);
      forall s | s in Wanted(services[..n], only)
        ensures s.name != services[n].name
      {
        var j :| 0 <= j < n && services[j] == s;
        LessAsymmetric(services[j].name, services[n].name);
      }
    }
  }

  lemma PairsDistinct(selected: seq<Selected>, wanted: seq<ServiceManifest>, deployments: seq<Deployment>)
    requires Pairs(selected, wanted, deployments)
    requires forall i, j :: 0 <= i < j < |wanted| ==> wanted[i].name != wanted[j].name
    ensures DistinctSelected(selected)
  {
    forall i | 0 <= i < |selected|
      ensures selected[i].deployment.name == wanted[i].name
    {
      Keyed.FindWitness(deployments, (d: Deployment) => d.name, wanted[i].name);
    }
  }
}
