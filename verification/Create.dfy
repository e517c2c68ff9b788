/** `internal/backup/create.go`: stop, capture, restart, publish. */
module Create {
  // The target's answers, the archives it streams and every local fault come from outside as functions of what was
  // done before, so the contract of `Create` holds for each way a run can go; the repository and the stage are the
  // real ones.

  import opened Text
  import opened Snapshot
  import opened ServiceTrace
  import opened Repository
  import Archive
  import Ordering
  import Paths

  datatype Resource = Resource(name: string, typ: ResourceType, destination: string, placed: bool)

  /** `digest` is what `ServiceConfigurationDigest` returns; `None` would be its error. */
  datatype Deployment = Deployment(
    name: string, absent: bool, digest: Option<string>, consistency: Consistency, data: seq<Resource>)

  /** One streamed archive as it arrives: the entries, whether the target sent it to the end, and local faults. */
  datatype Delivery = Delivery(stream: Archive.Stream, bytes: nat, sent: bool, alive: nat -> bool, fault: ArchiveFault)

  /** How the target answers, as a function of everything done so far. */
  datatype World = World(
    ready: (Trace, Deployment, Resource) -> bool, stops: (Trace, Deployment) -> bool,
    restarts: (Trace, Deployment) -> bool, delivers: (Trace, Deployment, Resource) -> Delivery)

  ghost predicate DistinctNames(deployments: seq<Deployment>) {
    forall i, j :: 0 <= i < j < |deployments| ==> deployments[i].name != deployments[j].name
  }

  predicate NeedsStop(d: Deployment, running: string -> bool) {
    d.consistency.StopFirst? && running(d.name)
  }

  ghost function Needs(selected: seq<Deployment>, running: string -> bool): set<string> {
    set d | d in selected && NeedsStop(d, running) :: d.name
  }

  /** `selectDeployments`: those with data, all of them or the one named. */
  predicate Selects(d: Deployment, only: string) {
    (only == "" || d.name == only) && d.data != []
  }

  function Select(all: seq<Deployment>, only: string): seq<Deployment> {
    if all == [] then []
    else Select(all[..|all| - 1], only) + if Selects(all[|all| - 1], only) then [all[|all| - 1]] else []
  }

  lemma {:induction false} SelectKeepsNames(all: seq<Deployment>, only: string)
    requires DistinctNames(all)
    ensures DistinctNames(Select(all, only))
    ensures forall d :: d in Select(all, only) <==> d in all && (only == "" || d.name == only) && d.data != []
  {
    if all != [] {
      var n := |all| - 1;
      SelectKeepsNames(all[..n], only);
      assert all == all[..n] + [all[n]];
      forall d | d in Select(all[..n], only)
        ensures d.name != all[n].name
      {
        var j :| 0 <= j < n && all[j] == d;
      }
    }
  }

  function ArchiveName(d: Deployment, r: Resource): string {
    Paths.Clean("services/" + d.name + "/data/" + r.name + ".tar")
  }

  ghost predicate SameElsewhere(before: Snapshots, after: Snapshots, id: string) {
    after - {id} == before - {id} && (id in before ==> id in after)
  }

  lemma StageGone(before: Snapshots, during: Snapshots, id: string)
    requires id !in before && SameElsewhere(before[id := map[]], during, id)
    ensures during - {id} == before
  {
    assert before[id := map[]] - {id} == before;
  }

  /** Everything was sent, and the stage takes an acceptable stream under a free path. */
  ghost predicate Storable(files: Dir, closed: bool, d: Deployment, r: Resource, delivery: Delivery) {
    var path := SafeArchivePath(ArchiveName(d, r));
    && delivery.sent && !closed && path.Some? && delivery.fault.NoArchiveFault? && !Blocked(files, path.value)
    && Archive.Accepts(delivery.stream) && forall k: nat :: k <= |delivery.stream.entries| ==> delivery.alive(k)
  }

  /** Nothing that was there is changed or gone. */
  ghost predicate Extends(before: Dir, after: Dir) {
    forall path :: path in before ==> path in after && after[path] == before[path]
  }

  /** Captured at some point of the run, the archive holds what was delivered at that point. */
  ghost predicate ArchivedAt(files: Dir, archive: string, d: Deployment, r: Resource, world: World, trace: Trace,
                             k: nat)
  {
    && k < |trace| && trace[k] == Captured(d.name, r.name, true)
    && HoldsEach(files, archive, world.delivers(trace[..k], d, r).stream)
  }

  ghost predicate Archived(files: Dir, archive: string, d: Deployment, r: Resource, world: World, trace: Trace) {
    exists k: nat :: ArchivedAt(files, archive, d, r, world, trace, k)
  }

  lemma StaysArchived(files: Dir, archive: string, d: Deployment, r: Resource, world: World, trace: Trace,
                      after: Dir, later: Trace)
    requires Archived(files, archive, d, r, world, trace) && Extends(files, after) && trace <= later
    ensures Archived(after, archive, d, r, world, later)
  {
    var k: nat :| ArchivedAt(files, archive, d, r, world, trace, k);
    assert later[..k] == trace[..k];
    assert ArchivedAt(after, archive, d, r, world, later, k);
  }

  method Capture(stage: Stage, d: Deployment, r: Resource, delivery: Delivery)
    returns (captured: Option<ResourceManifest>)
    modifies stage.repository`staging
    ensures SameElsewhere(old(stage.repository.staging), stage.repository.staging, stage.id)
    ensures Extends(old(stage.Files()), stage.Files())
    ensures captured.Some? <==> Storable(old(stage.Files()), stage.closed, d, r, delivery)
    ensures captured.Some? ==>
              && captured.value.name == r.name && captured.value.typ == r.typ
              && Describes(captured.value, stage.Files())
              && HoldsEach(stage.Files(), captured.value.archive, delivery.stream)
  {
    var written := stage.WriteArchive(ArchiveName(d, r), delivery.stream, delivery.alive, delivery.bytes,
                                      delivery.fault);
    if !delivery.sent || written.None? {
      return None;
    }
    return Some(written.value.(name := r.name, typ := r.typ));
  }

  // ---- what each step of a run answers to

  /** Every resource of the service was found ready. */
  ghost predicate AllChecked(d: Deployment, before: Trace) {
    forall i :: 0 <= i < |d.data| ==> Checked(d.name, d.data[i].name, true) in before
  }

  /** The step is about the service, is due at this point, and went as the target answered. */
  ghost predicate Proper(trace: Trace, k: nat, d: Deployment, world: World)
    requires k < |trace|
  {
    trace[k].service == d.name &&
    match trace[k]
    case Checked(_, name, ok) =>
      exists r :: r in d.data && r.name == name && ok == world.ready(trace[..k], d, r)
    case Stopped(_, ok) => AllChecked(d, trace[..k]) && ok == world.stops(trace[..k], d)
    case Captured(_, name, ok) =>
      && AllChecked(d, trace[..k])
      && exists r :: r in d.data && r.name == name && (ok ==> world.delivers(trace[..k], d, r).sent)
    case Restarted(_, ok) => ok == world.restarts(trace[..k], d)
    case _ => false
  }

  ghost predicate ProperFrom(trace: Trace, from: nat, d: Deployment, world: World) {
    forall k :: from <= k < |trace| ==> Proper(trace, k, d, world)
  }

  lemma ProperOneMore(trace: Trace, event: Event, from: nat, d: Deployment, world: World)
    requires ProperFrom(trace, from, d, world) && Proper(trace + [event], |trace|, d, world)
    ensures ProperFrom(trace + [event], from, d, world)
  {
    var after := trace + [event];
    forall k | from <= k < |trace|
      ensures Proper(after, k, d, world)
    {
      assert after[..k] == trace[..k] && after[k] == trace[k] && Proper(trace, k, d, world);
    }
  }

  lemma ProperAfter(trace: Trace, from: nat, middle: nat, d: Deployment, world: World, earlier: Trace)
    requires earlier <= trace && middle == |earlier| && from <= middle
    requires ProperFrom(earlier, from, d, world) && ProperFrom(trace, middle, d, world)
    ensures ProperFrom(trace, from, d, world)
  {
    forall k | from <= k < middle
      ensures Proper(trace, k, d, world)
    {
      assert trace[..k] == earlier[..k] && trace[k] == earlier[k] && Proper(earlier, k, d, world);
    }
  }

  method CheckAll(d: Deployment, world: World, trace0: Trace, ghost needs: set<string>) returns (ok: bool, trace: Trace)
    requires Disciplined(trace0, needs, {}, {})
    ensures Continues(trace0, trace, needs, {}, {})
    ensures ok ==> (AllOk(trace0) ==> AllOk(trace))
    ensures !ok ==> !AllOk(trace)
    ensures ProperFrom(trace, |trace0|, d, world) && (ok ==> AllChecked(d, trace))
  {
    trace, ok := trace0, true;
    for i := 0 to |d.data|
      invariant Continues(trace0, trace, needs, {}, {}) && (AllOk(trace0) ==> AllOk(trace))
      invariant ProperFrom(trace, |trace0|, d, world)
      invariant forall k :: 0 <= k < i ==> Checked(d.name, d.data[k].name, true) in trace
    {
      ok := world.ready(trace, d, d.data[i]);
      ContinueWith(trace0, trace, Checked(d.name, d.data[i].name, ok), needs, {}, {});
      CheckIsProper(trace, d, d.data[i], world, ok, |trace0|);
      trace := trace + [Checked(d.name, d.data[i].name, ok)];
      if !ok {
        return;
      }
    }
    ok := true;
  }

  lemma CheckIsProper(trace: Trace, d: Deployment, r: Resource, world: World, ok: bool, from: nat)
    requires r in d.data && ok == world.ready(trace, d, r) && ProperFrom(trace, from, d, world)
    ensures ProperFrom(trace + [Checked(d.name, r.name, ok)], from, d, world)
  {
    assert (trace + [Checked(d.name, r.name, ok)])[..|trace|] == trace;
    ProperOneMore(trace, Checked(d.name, r.name, ok), from, d, world);
  }

  lemma CaptureIsProper(trace: Trace, d: Deployment, r: Resource, world: World, ok: bool, from: nat)
    requires r in d.data && AllChecked(d, trace) && ProperFrom(trace, from, d, world)
    requires ok ==> world.delivers(trace, d, r).sent
    ensures ProperFrom(trace + [Captured(d.name, r.name, ok)], from, d, world)
  {
    assert (trace + [Captured(d.name, r.name, ok)])[..|trace|] == trace;
    ProperOneMore(trace, Captured(d.name, r.name, ok), from, d, world);
  }

  lemma StopIsProper(trace: Trace, d: Deployment, world: World, from: nat)
    requires AllChecked(d, trace) && ProperFrom(trace, from, d, world)
    ensures ProperFrom(trace + [Stopped(d.name, world.stops(trace, d))], from, d, world)
  {
    assert (trace + [Stopped(d.name, world.stops(trace, d))])[..|trace|] == trace;
    ProperOneMore(trace, Stopped(d.name, world.stops(trace, d)), from, d, world);
  }

  lemma RestartIsProper(trace: Trace, d: Deployment, world: World, from: nat)
    requires ProperFrom(trace, from, d, world)
    ensures ProperFrom(trace + [Restarted(d.name, world.restarts(trace, d))], from, d, world)
  {
    assert (trace + [Restarted(d.name, world.restarts(trace, d))])[..|trace|] == trace;
    ProperOneMore(trace, Restarted(d.name, world.restarts(trace, d)), from, d, world);
  }

  /** Captures every resource of a service, in order, until one fails. */
  method CaptureAll(stage: Stage, d: Deployment, world: World, trace0: Trace, ghost needs: set<string>,
                    ghost stopped: set<string>)
    returns (ok: bool, resources: seq<ResourceManifest>, trace: Trace)
    requires Disciplined(trace0, needs, {}, stopped) && (d.name in needs ==> d.name in stopped)
    requires AllChecked(d, trace0)
    modifies stage.repository`staging
    ensures ProperFrom(trace, |trace0|, d, world)
    ensures SameElsewhere(old(stage.repository.staging), stage.repository.staging, stage.id)
    ensures Extends(old(stage.Files()), stage.Files())
    ensures Continues(trace0, trace, needs, {}, stopped)
    ensures ok ==> Inventory(resources, d.data) && (AllOk(trace0) ==> AllOk(trace))
    ensures ok ==> EachArchived(stage.Files(), resources, d, world, trace)
    ensures !ok ==> !AllOk(trace)
  {
    trace, ok, resources := trace0, true, [];
    while |resources| < |d.data|
      invariant SameElsewhere(old(stage.repository.staging), stage.repository.staging, stage.id)
      invariant Continues(trace0, trace, needs, {}, stopped) && (AllOk(trace0) ==> AllOk(trace))
      invariant Extends(old(stage.Files()), stage.Files()) && AllChecked(d, trace)
      invariant EachArchived(stage.Files(), resources, d, world, trace)
      invariant InventorySoFar(resources, d.data) && ProperFrom(trace, |trace0|, d, world)
    {
      ok, resources, trace := CaptureNext(stage, d, resources, world, trace0, trace, needs, stopped);
      if !ok {
        return;
      }
    }
    ok := true;
  }

  ghost predicate InventorySoFar(resources: seq<ResourceManifest>, data: seq<Resource>) {
    |resources| <= |data| && forall i :: 0 <= i < |resources| ==>
      resources[i].name == data[i].name && resources[i].typ == data[i].typ
  }

  lemma CaptureGoesOn(start: Trace, trace: Trace, d: Deployment, r: Resource, world: World, ok: bool,
                      needs: set<string>, stopped: set<string>)
    requires Continues(start, trace, needs, {}, stopped) && (d.name in needs ==> d.name in stopped)
    requires r in d.data && AllChecked(d, trace) && ProperFrom(trace, |start|, d, world)
    requires ok ==> world.delivers(trace, d, r).sent
    ensures var after := trace + [Captured(d.name, r.name, ok)];
            && Continues(start, after, needs, {}, stopped) && trace <= after
            && AllChecked(d, after) && ProperFrom(after, |start|, d, world)
            && (AllOk(after) <==> AllOk(trace) && ok)
  {
    ContinueWith(start, trace, Captured(d.name, r.name, ok), needs, {}, stopped);
    CaptureIsProper(trace, d, r, world, ok, |start|);
    assert forall e :: e in trace ==> e in trace + [Captured(d.name, r.name, ok)];
  }

  method CaptureNext(stage: Stage, d: Deployment, resources0: seq<ResourceManifest>, world: World,
                     ghost start: Trace, trace0: Trace, ghost needs: set<string>, ghost stopped: set<string>)
    returns (ok: bool, resources: seq<ResourceManifest>, trace: Trace)
    requires Continues(start, trace0, needs, {}, stopped) && (d.name in needs ==> d.name in stopped)
    requires EachArchived(stage.Files(), resources0, d, world, trace0) && |resources0| < |d.data|
    requires InventorySoFar(resources0, d.data)
    requires AllChecked(d, trace0) && ProperFrom(trace0, |start|, d, world)
    modifies stage.repository`staging
    ensures SameElsewhere(old(stage.repository.staging), stage.repository.staging, stage.id)
    ensures Extends(old(stage.Files()), stage.Files())
    ensures Continues(start, trace, needs, {}, stopped) && trace0 <= trace
    ensures ok ==> |resources| == |resources0| + 1 && InventorySoFar(resources, d.data)
    ensures AllChecked(d, trace) && ProperFrom(trace, |start|, d, world)
    ensures ok ==> EachArchived(stage.Files(), resources, d, world, trace)
    ensures ok ==> (AllOk(trace0) ==> AllOk(trace))
    ensures !ok ==> !AllOk(trace)
  {
    var r := d.data[|resources0|];
    var captured := Capture(stage, d, r, world.delivers(trace0, d, r));
    ok := captured.Some?;
    CaptureGoesOn(start, trace0, d, r, world, ok, needs, stopped);
    trace, resources := trace0 + [Captured(d.name, r.name, ok)], resources0;
    if ok {
      OneMoreArchived(old(stage.Files()), resources0, d, world, trace0, stage.Files(), captured.value, trace);
      resources := resources0 + [captured.value];
    }
  }

  ghost predicate EachArchived(files: Dir, resources: seq<ResourceManifest>, d: Deployment, world: World,
                               trace: Trace)
  {
    |resources| <= |d.data| && forall i :: 0 <= i < |resources| ==>
      Archived(files, resources[i].archive, d, d.data[i], world, trace)
  }

  lemma OneMoreArchived(files: Dir, resources: seq<ResourceManifest>, d: Deployment, world: World, trace: Trace,
                        after: Dir, captured: ResourceManifest, later: Trace)
    requires EachArchived(files, resources, d, world, trace) && Extends(files, after) && |resources| < |d.data|
    requires var r := d.data[|resources|];
             && later == trace + [Captured(d.name, r.name, true)]
             && HoldsEach(after, captured.archive, world.delivers(trace, d, r).stream)
    ensures EachArchived(after, resources + [captured], d, world, later)
  {
    forall i | 0 <= i < |resources|
      ensures Archived(after, resources[i].archive, d, d.data[i], world, later)
    {
      StaysArchived(files, resources[i].archive, d, d.data[i], world, trace, after, later);
    }
    assert later[..|trace|] == trace;
    assert ArchivedAt(after, captured.archive, d, d.data[|resources|], world, later, |trace|);
  }

  /** A list of descriptions, one for each declared resource. */
  ghost predicate Inventory(resources: seq<ResourceManifest>, data: seq<Resource>) {
    |resources| == |data| && forall i :: 0 <= i < |data| ==>
      resources[i].name == data[i].name && resources[i].typ == data[i].typ
  }

  /** The manifest entry of a service holds each of its declared resources. */
  ghost predicate Covers(entry: ServiceManifest, d: Deployment) {
    && entry.name == d.name && entry.consistency == d.consistency && d.digest == Some(entry.configurationDigest)
    && |entry.resources| == |d.data|
    && forall i :: 0 <= i < |d.data| ==> Has(entry.resources, d.data[i])
  }

  ghost predicate Has(resources: seq<ResourceManifest>, r: Resource) {
    exists k :: 0 <= k < |resources| && resources[k].name == r.name && resources[k].typ == r.typ
  }

  /** For each declared resource of the service the entry names an archive with what was delivered of it. */
  ghost predicate EntryArchived(files: Dir, entry: ServiceManifest, d: Deployment, world: World, trace: Trace) {
    forall i :: 0 <= i < |d.data| ==> ResourceArchived(files, entry, d, d.data[i], world, trace)
  }

  ghost predicate ResourceArchived(files: Dir, entry: ServiceManifest, d: Deployment, r: Resource, world: World,
                                   trace: Trace)
  {
    exists k :: 0 <= k < |entry.resources| && entry.resources[k].name == r.name
                && Archived(files, entry.resources[k].archive, d, r, world, trace)
  }

  lemma SortedArchived(files: Dir, entry: ServiceManifest, d: Deployment, resources: seq<ResourceManifest>,
                       world: World, trace: Trace)
    requires Inventory(resources, d.data) && multiset(entry.resources) == multiset(resources)
    requires EachArchived(files, resources, d, world, trace)
    ensures EntryArchived(files, entry, d, world, trace)
  {
    Ordering.SameElements(resources, entry.resources);
    forall i | 0 <= i < |d.data|
      ensures ResourceArchived(files, entry, d, d.data[i], world, trace)
    {
      assert resources[i] in resources;
      var k :| 0 <= k < |entry.resources| && entry.resources[k] == resources[i];
      assert entry.resources[k].name == d.data[i].name;
    }
  }

  lemma EntryStaysArchived(files: Dir, entry: ServiceManifest, d: Deployment, world: World, trace: Trace,
                           after: Dir, later: Trace)
    requires EntryArchived(files, entry, d, world, trace) && Extends(files, after) && trace <= later
    ensures EntryArchived(after, entry, d, world, later)
  {
    forall i | 0 <= i < |d.data|
      ensures ResourceArchived(after, entry, d, d.data[i], world, later)
    {
      assert ResourceArchived(files, entry, d, d.data[i], world, trace);
      var k :| 0 <= k < |entry.resources| && entry.resources[k].name == d.data[i].name
               && Archived(files, entry.resources[k].archive, d, d.data[i], world, trace);
      StaysArchived(files, entry.resources[k].archive, d, d.data[i], world, trace, after, later);
    }
  }

  lemma SortedInventoryCovers(entry: ServiceManifest, d: Deployment, resources: seq<ResourceManifest>)
    requires entry.name == d.name && entry.consistency == d.consistency && d.digest == Some(entry.configurationDigest)
    requires Inventory(resources, d.data) && multiset(entry.resources) == multiset(resources)
    ensures Covers(entry, d)
  {
    Ordering.SameElements(resources, entry.resources);
    forall i | 0 <= i < |d.data|
      ensures Has(entry.resources, d.data[i])
    {
      assert resources[i] in resources;
      var k :| 0 <= k < |entry.resources| && entry.resources[k] == resources[i];
      assert entry.resources[k].name == d.data[i].name;
    }
  }

  /** A service that a backup can take: declared, digestible, and with something to capture. */
  predicate Fit(d: Deployment) {
    !d.absent && d.digest.Some? && d.name != "" && !d.consistency.NoConsistency? && d.data != []
  }

  function ServiceNames(services: seq<ServiceManifest>): set<string> {
    set s | s in services :: s.name
  }

  /** Captures a service and records it in the stage. */
  method CaptureService(stage: Stage, d: Deployment, world: World, trace0: Trace, ghost needs: set<string>,
                        ghost stopped: set<string>)
    returns (ok: bool, trace: Trace, ghost entry: ServiceManifest)
    requires stage.Valid() && d.digest.Some? && AllChecked(d, trace0)
    requires Disciplined(trace0, needs, {}, stopped) && (d.name in needs ==> d.name in stopped)
    modifies stage`manifest, stage.repository`staging
    ensures stage.Valid() && SameElsewhere(old(stage.repository.staging), stage.repository.staging, stage.id)
    ensures Continues(trace0, trace, needs, {}, stopped) && ProperFrom(trace, |trace0|, d, world)
    ensures stage.manifest == old(stage.manifest).(services := stage.manifest.services)
    ensures !ok ==> stage.manifest == old(stage.manifest)
    ensures ok ==> Covers(entry, d) && (AllOk(trace0) ==> AllOk(trace))
    ensures ok ==> EntryArchived(stage.Files(), entry, d, world, trace)
    ensures Extends(old(stage.Files()), stage.Files())
    ensures !ok ==> !AllOk(trace) || stage.closed || !Fit(d) || d.name in ServiceNames(old(stage.manifest).services)
    ensures ok ==> multiset(stage.manifest.services) == multiset(old(stage.manifest).services) + multiset{entry}
  {
    entry := ServiceManifest("", "", NoConsistency, []);
    var resources;
    ok, resources, trace := CaptureAll(stage, d, world, trace0, needs, stopped);
    if ok {
      ok, entry := stage.AddService(ServiceManifest(d.name, d.digest.value, d.consistency, resources));
      if ok {
        SortedInventoryCovers(entry, d, resources);
        SortedArchived(stage.Files(), entry, d, resources, world, trace);
      }
    }
  }

  /**
   * One service: check, stop if consistency asks for it, capture, and restart whatever was stopped. It is left down
   * only when its configuration cannot be digested.
   */
  method BackUpService(stage: Stage, d: Deployment, running: string -> bool, world: World, trace0: Trace,
                       ghost needs: set<string>)
    returns (ok: bool, trace: Trace, ghost entry: ServiceManifest)
    requires stage.Valid() && Disciplined(trace0, needs, {}, {}) && (d.name in needs <==> NeedsStop(d, running))
    modifies stage`manifest, stage.repository`staging
    ensures stage.Valid() && SameElsewhere(old(stage.repository.staging), stage.repository.staging, stage.id)
    ensures stage.manifest == old(stage.manifest).(services := stage.manifest.services)
    ensures ok || d.digest.Some? ==> Disciplined(trace, needs, {}, {})
    ensures exists stopped :: Disciplined(trace, needs, {}, stopped) && stopped <= {d.name}
    ensures StopsOk(trace0) ==> FailedStopIsLast(trace)
    ensures ok ==> Covers(entry, d) && (AllOk(trace0) ==> AllOk(trace))
    ensures ok ==> EntryArchived(stage.Files(), entry, d, world, trace)
    ensures Extends(old(stage.Files()), stage.Files()) && trace0 <= trace && ProperFrom(trace, |trace0|, d, world)
    ensures !ok ==> !AllOk(trace) || stage.closed || !Fit(d) || d.name in ServiceNames(old(stage.manifest).services)
    ensures ok ==> multiset(stage.manifest.services) == multiset(old(stage.manifest).services) + multiset{entry}
  {
    entry := ServiceManifest("", "", NoConsistency, []);
    trace := trace0;
    if d.absent {
      return false, trace, entry;
    }
    ok, trace := CheckAll(d, world, trace, needs);
    if !ok {
      return;
    }
    ghost var stopped: set<string> := {};
    if NeedsStop(d, running) {
      ok := world.stops(trace, d);
      Extend(trace, Stopped(d.name, ok), needs, {}, {});
      StopIsProper(trace, d, world, |trace0|);
      trace := trace + [Stopped(d.name, ok)];
      if !ok {
        return;
      }
      stopped := {d.name};
      assert StoppedAfter({}, Stopped(d.name, true)) == stopped;
    }
    if d.digest.None? {
      return false, trace, entry;
    }
    ghost var before := trace;
    ok, trace, entry := CaptureService(stage, d, world, trace, needs, stopped);
    ProperAfter(trace, |trace0|, |before|, d, world, before);
    if NeedsStop(d, running) {
      var restarted := world.restarts(trace, d);
      Extend(trace, Restarted(d.name, restarted), needs, {}, stopped);
      RestartIsProper(trace, d, world, |trace0|);
      assert StoppedAfter(stopped, Restarted(d.name, restarted)) == {};
      if ok {
        EntryStaysArchived(stage.Files(), entry, d, world, trace, stage.Files(),
                           trace + [Restarted(d.name, restarted)]);
      }
      trace := trace + [Restarted(d.name, restarted)];
      ok := ok && restarted;
    }
  }

  /** Everything else a run depends on: gates, identifiers, and local faults. */
  datatype Request = Request(
    all: seq<Deployment>, only: string, running: string -> bool, admitted: bool, id: string, version: string,
    target: string, now: int, beginFault: bool, maintenance: Option<Provenance>, completeFault: CompleteFault,
    leftover: Option<Dir>)

  /** The manifest a stage starts from, with its provenance. */
  function Begun(request: Request): Manifest {
    Manifest(1, request.version, request.id, request.now, request.target, [], request.maintenance, NoSum)
  }

  /** The run begins a stage and is then refused for its provenance alone. */
  predicate Abandons(request: Request) {
    && request.admitted && Select(request.all, request.only) != [] && !request.beginFault
    && request.maintenance.Some? && !ValidManifest(Begun(request))
  }

  /** The request is for the deployment, which holds data. */
  ghost predicate Asked(request: Request, d: Deployment) {
    d in request.all && (request.only == "" || d.name == request.only) && d.data != []
  }

  /** A running service whose consistency is to stop first is captured only while it is down. */
  ghost predicate CapturedWhileDown(trace: Trace, request: Request) {
    forall d, k :: Asked(request, d) && d.consistency == StopFirst && request.running(d.name)
                   && 0 <= k < |trace| && trace[k].Captured? && trace[k].service == d.name ==>
      Down(trace[..k], d.name)
  }

  /** Nothing else is stopped, and nothing is restarted that is not down. */
  ghost predicate StopsOnlyThose(trace: Trace, request: Request) {
    forall k :: 0 <= k < |trace| ==>
      && (trace[k].Stopped? ==>
            exists d :: Asked(request, d) && d.name == trace[k].service && d.consistency == StopFirst
                        && request.running(d.name))
      && (trace[k].Restarted? ==> Down(trace[..k], trace[k].service))
  }

  /**
   * What holds of a run however it ends: services that ask for it are captured only while down, no other is stopped,
   * never two are down together, nothing follows a failed stop, every step was due and went as the target answered,
   * and only a service whose configuration cannot be digested is left down.
   */
  ghost predicate InOrder(trace: Trace, request: Request, world: World) {
    && CapturedWhileDown(trace, request) && StopsOnlyThose(trace, request) && OneDownAtATime(trace, {})
    && FailedStopIsLast(trace) && EachProper(trace, Select(request.all, request.only), world)
    && forall s :: Down(trace, s) ==>
         exists d :: d in Select(request.all, request.only) && d.name == s && d.digest.None?
  }

  lemma EmptyInOrder(request: Request, world: World)
    ensures InOrder([], request, world)
  {
  }

  /** The order of a run in terms of the services selected is that in terms of what was asked for. */
  lemma SelectedInOrder(trace: Trace, request: Request, world: World)
    requires DistinctNames(request.all)
    requires var selected := Select(request.all, request.only);
             && WorkedWhileDown(trace, Needs(selected, request.running))
             && StopsNeeded(trace, Needs(selected, request.running)) && OneDownAtATime(trace, {})
             && FailedStopIsLast(trace) && EachProper(trace, selected, world)
             && forall s :: Down(trace, s) ==> exists d :: d in selected && d.name == s && d.digest.None?
    ensures InOrder(trace, request, world)
  {
    SelectKeepsNames(request.all, request.only);
  }

  method Create(repository: Repository, request: Request, world: World)
    returns (result: Option<Manifest>, trace: Trace, ghost entries: seq<ServiceManifest>, ghost draft: Option<Draft>)
    requires DistinctNames(request.all)
    modifies repository
    ensures InOrder(trace, request, world)
    ensures result.Some? ==> AllOk(trace) && OnlyDown(trace, {})
    ensures draft.Some? ==> draft.value.manifest.snapshotId == request.id
    ensures Step(old(repository.completed), repository.completed,
                 EffectOf(old(repository.completed), request.id, draft, request.completeFault))
    ensures result.Some? <==>
              && draft.Some? && Completes(old(repository.completed), request.id, draft.value)
              && request.completeFault.NoCompleteFault?
    ensures result.Some? ==> draft.value.manifest == result.value
    ensures result.Some? ==>
              && |entries| == |Select(request.all, request.only)|
              && multiset(result.value.services) == multiset(entries)
              && forall i :: 0 <= i < |entries| ==> Covers(entries[i], Select(request.all, request.only)[i])
    ensures result.Some? ==>
              && request.id in repository.completed
              && AllArchived(repository.completed[request.id], entries, Select(request.all, request.only), world, trace)
    ensures repository.staging - {request.id} == old(repository.staging) - {request.id}
    ensures request.id in old(repository.staging) ==> repository.staging == old(repository.staging)
    ensures request.id !in old(repository.staging) && request.leftover.None? ==>
              repository.staging ==
              if Abandons(request) then old(repository.staging)[request.id := map[]] else old(repository.staging)
    ensures result.None? && draft.None? ==>
              || !request.admitted || Select(request.all, request.only) == []
              || request.beginFault || request.id in old(repository.staging)
              || (request.maintenance.Some? && !ValidManifest(Begun(request)))
              || !AllOk(trace) || exists d :: d in Select(request.all, request.only) && !Fit(d)
  {
    trace, entries, draft := [], [], None;
    var selected := Select(request.all, request.only);
    SelectKeepsNames(request.all, request.only);
    NothingDrafted(repository.completed, request.id, request.completeFault);
    EmptyInOrder(request, world);
    if !request.admitted || selected == [] {
      return None, trace, entries, draft;
    }
    var begun := repository.Begin(request.id, request.version, request.target, request.now, request.beginFault);
    if begun.None? {
      return None, trace, entries, draft;
    }
    var stage := begun.value;
    var recorded := stage.SetMaintenance(request.maintenance);
    if !recorded {
      return None, trace, entries, draft;
    }
    var ok;
    ok, trace, entries := BackUpAll(stage, selected, request.running, world);
    StageGone(old(repository.staging), repository.staging, request.id);
    SelectedInOrder(trace, request, world);
    if !ok {
      stage.Abort(request.leftover);
      return None, trace, entries, draft;
    }
    result, draft := Finish(stage, request.completeFault, request.leftover);
    if result.Some? {
      PublishedArchived(draft.value, entries, selected, world, trace);
    }
  }

  lemma NothingDrafted(completed: Snapshots, id: string, fault: CompleteFault)
    ensures Step(completed, completed, EffectOf(completed, id, None, fault))
  {
  }

  /** When the rest of its manifest is in order, a run abandons its stage exactly for an invalid provenance. */
  lemma AbandonsForProvenance(request: Request)
    requires request.admitted && Select(request.all, request.only) != [] && !request.beginFault
    requires ValidManifest(Begun(request.(maintenance := None)))
    ensures Abandons(request) <==> request.maintenance.Some? && !ValidProvenance(request.maintenance.value)
  {
  }

  /** Such a run: one service with one volume, and a provenance that names no job. */
  lemma AbandoningRun(id: string, provenance: Provenance) returns (request: Request)
    requires ValidSnapshotId(id) && provenance.job == ""
    ensures request.id == id && request.leftover.None? && DistinctNames(request.all)
    ensures ValidManifest(Begun(request.(maintenance := None))) && Abandons(request)
  {
    var d := Deployment("web", false, Some(""), Live, [Resource("data", Volume, "", false)]);
    request := Request([d], "", _ => false, true, id, "1.0.0", "host", 1, false, Some(provenance),
                       NoCompleteFault, None);
    assert [d][..0] == [] && Select([d][..0], "") == [];
    assert Select([d], "") == [d];
  }

  /** What is completed: the staged files and the manifest sealed over them. */
  datatype Draft = Draft(files: Dir, manifest: Manifest)

  function Directory(draft: Draft): Dir {
    WithManifest(draft.files, draft.manifest)
  }

  /** The draft's directory can take its manifest and verifies under it, and nothing occupies its name. */
  ghost predicate Completes(completed: Snapshots, id: string, draft: Draft) {
    && ManifestWritable(draft.files) && Verifies(Directory(draft), draft.manifest)
    && (id in completed ==> completed[id] == map[])
  }

  /** What a run does to the completed snapshots: at most what publishing its draft does under the given fault. */
  ghost function EffectOf(completed: Snapshots, id: string, draft: Option<Draft>, fault: CompleteFault): Effect {
    if draft.None? || !Completes(completed, id, draft.value) then Nothing
    else PublishEffect(id, Directory(draft.value), fault)
  }

  /**
   * A run that reports a failure leaves a new snapshot that verifies in exactly one case: the draft was complete, its
   * directories could not be protected, and it could not be moved back. No other snapshot is ever affected.
   */
  lemma FailureLeavesPublished(before: Snapshots, after: Snapshots, id: string, draft: Option<Draft>,
                               fault: CompleteFault)
    requires !fault.NoCompleteFault? && Verified(before, id).None?
    requires draft.Some? ==> draft.value.manifest.snapshotId == id
    requires Step(before, after, EffectOf(before, id, draft, fault))
    ensures Verified(after, id).Some? <==>
              draft.Some? && Completes(before, id, draft.value) && fault == CannotProtect(false)
    ensures forall other :: other != id ==> Verified(after, other) == Verified(before, other)
  {
    if draft.Some? && Completes(before, id, draft.value) {
      assert LoadManifest(Directory(draft.value)) == Some(draft.value.manifest);
    }
  }

  method Finish(stage: Stage, fault: CompleteFault, leftover: Option<Dir>)
    returns (result: Option<Manifest>, ghost draft: Option<Draft>)
    requires stage.Valid() && !stage.closed && stage.id in stage.repository.staging && stage.manifest.services != []
    modifies stage, stage.repository
    ensures draft == Some(Draft(old(stage.Files()), SealManifest(old(stage.manifest))))
    ensures Step(old(stage.repository.completed), stage.repository.completed,
                 EffectOf(old(stage.repository.completed), stage.id, draft, fault))
    ensures result.Some? <==>
            Completes(old(stage.repository.completed), stage.id, draft.value) && fault.NoCompleteFault?
    ensures result.Some? ==> result.value == draft.value.manifest
    ensures stage.repository.staging - {stage.id} == old(stage.repository.staging) - {stage.id}
    ensures result.Some? || leftover.None? ==>
              stage.repository.staging == old(stage.repository.staging) - {stage.id}
  {
    draft := Some(Draft(stage.Files(), SealManifest(stage.manifest)));
    ghost var before, staging, manifest := stage.repository.completed, stage.repository.staging, stage.manifest;
    assert Publishable(before, staging, stage.id, manifest) <==> Completes(before, stage.id, draft.value);
    result := stage.Complete(fault);
    if result.None? {
      stage.Abort(leftover);
    }
  }

  /** Every step is proper for one of the selected services. */
  ghost predicate EachProper(trace: Trace, selected: seq<Deployment>, world: World) {
    forall k :: 0 <= k < |trace| ==> ProperForSome(trace, k, selected, world)
  }

  ghost predicate ProperForSome(trace: Trace, k: nat, selected: seq<Deployment>, world: World)
    requires k < |trace|
  {
    exists d :: d in selected && Proper(trace, k, d, world)
  }

  lemma ServiceProper(trace: Trace, selected: seq<Deployment>, world: World, later: Trace, d: Deployment)
    requires EachProper(trace, selected, world) && trace <= later && d in selected
    requires ProperFrom(later, |trace|, d, world)
    ensures EachProper(later, selected, world)
  {
    forall k | 0 <= k < |later|
      ensures ProperForSome(later, k, selected, world)
    {
      if k < |trace| {
        assert ProperForSome(trace, k, selected, world);
        var e :| e in selected && Proper(trace, k, e, world);
        assert later[..k] == trace[..k] && later[k] == trace[k];
        assert Proper(later, k, e, world);
      }
    }
  }

  /** The entries so far, each archived for its service. */
  ghost predicate AllArchived(files: Dir, entries: seq<ServiceManifest>, selected: seq<Deployment>, world: World,
                              trace: Trace)
  {
    |entries| <= |selected| && forall i :: 0 <= i < |entries| ==>
      EntryArchived(files, entries[i], selected[i], world, trace)
  }

  lemma AllArchivedOneMore(files: Dir, entries: seq<ServiceManifest>, selected: seq<Deployment>, world: World,
                           trace: Trace, after: Dir, entry: ServiceManifest, later: Trace)
    requires AllArchived(files, entries, selected, world, trace) && |entries| < |selected|
    requires Extends(files, after) && trace <= later
    requires EntryArchived(after, entry, selected[|entries|], world, later)
    ensures AllArchived(after, entries + [entry], selected, world, later)
  {
    forall i | 0 <= i < |entries|
      ensures EntryArchived(after, entries[i], selected[i], world, later)
    {
      EntryStaysArchived(files, entries[i], selected[i], world, trace, after, later);
    }
  }

  lemma {:induction false} ListedResource(services: seq<ServiceManifest>, s: ServiceManifest, r: ResourceManifest)
    requires s in services && r in s.resources
    ensures r in ServiceResources(services)
  {
    var n := |services| - 1;
    if s != services[n] {
      assert s in services[..n];
      ListedResource(services[..n], s, r);
    }
  }

  /** What the draft holds, the published directory holds as well: no archive stands where the manifest goes. */
  lemma PublishedArchived(draft: Draft, entries: seq<ServiceManifest>, selected: seq<Deployment>, world: World,
                          trace: Trace)
    requires AllArchived(draft.files, entries, selected, world, trace)
    requires multiset(draft.manifest.services) == multiset(entries) && Verifies(Directory(draft), draft.manifest)
    ensures AllArchived(Directory(draft), entries, selected, world, trace)
  {
    forall i, j | 0 <= i < |entries| && 0 <= j < |selected[i].data|
      ensures ResourceArchived(Directory(draft), entries[i], selected[i], selected[i].data[j], world, trace)
    {
      var d, r := selected[i], selected[i].data[j];
      assert EntryArchived(draft.files, entries[i], d, world, trace);
      assert ResourceArchived(draft.files, entries[i], d, r, world, trace);
      var k :| 0 <= k < |entries[i].resources| && entries[i].resources[k].name == r.name
               && Archived(draft.files, entries[i].resources[k].archive, d, r, world, trace);
      NotTheManifest(draft, entries[i], entries, k);
      var n: nat :| ArchivedAt(draft.files, entries[i].resources[k].archive, d, r, world, trace, n);
      assert ArchivedAt(Directory(draft), entries[i].resources[k].archive, d, r, world, trace, n);
    }
  }

  lemma NotTheManifest(draft: Draft, entry: ServiceManifest, entries: seq<ServiceManifest>, k: nat)
    requires multiset(draft.manifest.services) == multiset(entries) && Verifies(Directory(draft), draft.manifest)
    requires entry in entries && k < |entry.resources|
    ensures entry.resources[k].archive != MANIFEST
  {
    Ordering.SameElements(entries, draft.manifest.services);
    ListedResource(draft.manifest.services, entry, entry.resources[k]);
    var rs := Resources(draft.manifest);
    var n :| 0 <= n < |rs| && rs[n] == entry.resources[k];
    assert rs[n].archive in StoredNames(Directory(draft));
  }

  /** The services in turn, each back up before the next is touched. */
  method BackUpAll(stage: Stage, selected: seq<Deployment>, running: string -> bool, world: World)
    returns (ok: bool, trace: Trace, ghost entries: seq<ServiceManifest>)
    requires stage.Valid() && !stage.closed && stage.manifest.services == [] && DistinctNames(selected)
    modifies stage`manifest, stage.repository`staging
    ensures stage.Valid() && SameElsewhere(old(stage.repository.staging), stage.repository.staging, stage.id)
    ensures WorkedWhileDown(trace, Needs(selected, running)) && StopsNeeded(trace, Needs(selected, running))
            && OneDownAtATime(trace, {})
    ensures FailedStopIsLast(trace)
    ensures forall s :: Down(trace, s) ==> !ok && exists d :: d in selected && d.name == s && d.digest.None?
    ensures ok ==> AllOk(trace)
    ensures !ok ==> !AllOk(trace) || exists d :: d in selected && !Fit(d)
    ensures ok ==> |entries| == |selected| && multiset(stage.manifest.services) == multiset(entries)
    ensures ok ==> forall i :: 0 <= i < |entries| ==> Covers(entries[i], selected[i])
    ensures ok ==> AllArchived(stage.Files(), entries, selected, world, trace)
    ensures EachProper(trace, selected, world)
  {
    ok, trace, entries := true, [], [];
    ghost var needs := Needs(selected, running);
    for i := 0 to |selected|
      invariant SameElsewhere(old(stage.repository.staging), stage.repository.staging, stage.id)
      invariant ok && stage.Valid() && Disciplined(trace, needs, {}, {}) && AllOk(trace)
      invariant |entries| == i && multiset(stage.manifest.services) == multiset(entries)
      invariant EachProper(trace, selected, world)
      invariant CoversEach(entries, selected) && AllArchived(stage.Files(), entries, selected, world, trace)
    {
      ghost var files, before := stage.Files(), trace;
      NotYetAdded(selected, entries, stage.manifest.services);
      assert selected[i] in selected;
      ghost var entry;
      ok, trace, entry := BackUpService(stage, selected[i], running, world, trace, needs);
      ServiceProper(before, selected, world, trace, selected[i]);
      if !ok {
        return;
      }
      CoversOneMore(entries, entry, selected);
      AllArchivedOneMore(files, entries, selected, world, before, stage.Files(), entry, trace);
      entries := entries + [entry];
    }
  }

  /** The entries describe the first of the selected services, in order. */
  ghost predicate CoversEach(entries: seq<ServiceManifest>, selected: seq<Deployment>) {
    |entries| <= |selected| && forall k :: 0 <= k < |entries| ==> Covers(entries[k], selected[k])
  }

  lemma CoversOneMore(entries: seq<ServiceManifest>, entry: ServiceManifest, selected: seq<Deployment>)
    requires CoversEach(entries, selected) && |entries| < |selected| && Covers(entry, selected[|entries|])
    ensures CoversEach(entries + [entry], selected)
  {
  }

  lemma NotYetAdded(selected: seq<Deployment>, entries: seq<ServiceManifest>, services: seq<ServiceManifest>)
    requires DistinctNames(selected) && |entries| < |selected| && multiset(services) == multiset(entries)
    requires CoversEach(entries, selected)
    ensures selected[|entries|].name !in ServiceNames(services)
  {
    Ordering.SameElements(services, entries);
    forall s | s in services
      ensures s.name != selected[|entries|].name
    {
      assert s in entries;
      var k :| 0 <= k < |entries| && entries[k] == s;
      assert Covers(entries[k], selected[k]);
    }
  }
}

