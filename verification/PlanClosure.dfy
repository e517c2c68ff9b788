/** What the independent planners guarantee together. */
module PlanClosure {
  // Distinct IDs, no cycle, and exactly when a dependency is missing so that `Build` fails in `Finalize`.

  import opened Text
  import opened ChangeIds
  import opened Planner

  ghost function IdSet(ps: seq<Planned>): set<ChangeId> {
    set p | p in ps :: p.id
  }

  ghost predicate DistinctPlan(ps: seq<Planned>) {
    forall i, j :: 0 <= i < j < |ps| ==> ps[i].id != ps[j].id
  }

  /** Every dependency of `ps` is one of `ids`. */
  ghost predicate ClosedIn(ps: seq<Planned>, ids: set<ChangeId>) {
    forall p, d :: p in ps && d in p.dependencies ==> d in ids
  }

  /** The module an ID belongs to. */
  function Module(id: ChangeId): nat {
    match id
    case DataRoot => 0
    case DataRootPermissions => 0
    case ServiceChange(_, _) => 2
    case SelinuxReview(_, _) => 2
    case SshHardening => 3
    case StorageStep(_, _) => 4
    case TailscaleRepository => 5
    case TailscalePackage => 5
    case TailscaleService => 5
    case UnattendedUpdates => 6
    case _ => 1
  }

  /** Dependencies always lead to a lower rank. */
  function Rank(id: ChangeId): nat {
    match id
    case StorageStep(_, Mountpoint) => 0
    case StorageStep(_, MountConfig) => 1
    case StorageStep(_, Mount) => 2
    case DockerEngine => 1
    case DockerService => 2
    case DockerCompose => 3
    case TailscaleService => 1
    case ServiceChange(_, Start) => 5
    case ServiceChange(_, Stop) => 5
    case ServiceChange(_, _) => 4
    case _ => 0
  }

  ghost predicate Orderly(p: Planned) {
    ValidId(p.id) && forall d :: d in p.dependencies ==> ValidId(d) && Rank(d) < Rank(p.id)
  }

  /** What one module contributes: its own IDs, once each, with valid names and falling ranks. */
  ghost predicate Contribution(ps: seq<Planned>, m: nat) {
    DistinctPlan(ps) && forall p :: p in ps ==> Module(p.id) == m && Orderly(p)
  }

  lemma Join(a: seq<Planned>, b: seq<Planned>)
    requires DistinctPlan(a) && DistinctPlan(b) && IdSet(a) !! IdSet(b)
    ensures DistinctPlan(a + b) && IdSet(a + b) == IdSet(a) + IdSet(b)
  {
    forall i | 0 <= i < |a| ensures a[i].id in IdSet(a) { assert a[i] in a; }
    forall i | 0 <= i < |b| ensures b[i].id in IdSet(b) { assert b[i] in b; }
    forall p ensures p in a + b <==> p in a || p in b { }
  }

  // ---- module by module

  lemma BaseContributes(host: Host)
    ensures Contribution(BasePlan(host), 0) && ClosedIn(BasePlan(host), {})
    ensures IdSet(BasePlan(host)) == (if !host.dataRootExists then {DataRoot}
                                      else if !host.dataRootCorrect then {DataRootPermissions} else {})
  {
  }

  /** The Docker planner neither has nothing to do nor stops early. */
  predicate StackPlanned(host: Host, cfg: Config) {
    (cfg.docker || cfg.services != []) && DockerStop(host.family, host.docker).None?
  }

  /** Void's Compose change names the service change even when the service is ready and has none. */
  predicate VoidComposeDangles(host: Host, cfg: Config) {
    host.family.Void? && StackPlanned(host, cfg) && ComposePlanned(host, cfg) && DockerReady(host.docker)
  }

  lemma OneContributes(p: Planned)
    requires Orderly(p)
    ensures Contribution([p], Module(p.id)) && IdSet([p]) == {p.id}
    ensures p.dependencies == [] ==> ClosedIn([p], {p.id})
  {
    assert p in [p];
  }

  lemma WhenContributes(condition: bool, id: ChangeId, dependencies: seq<ChangeId>, ids: set<ChangeId>)
    requires Orderly(Planned(id, dependencies))
    ensures Contribution(When(condition, id, dependencies), Module(id))
    ensures IdSet(When(condition, id, dependencies)) == if condition then {id} else {}
    ensures ClosedIn(When(condition, id, dependencies), ids) <==>
            (condition ==> forall d :: d in dependencies ==> d in ids)
  {
    if condition {
      OneContributes(Planned(id, dependencies));
      assert Planned(id, dependencies) in When(condition, id, dependencies);
    }
  }

  /** Two contributions of one module, side by side. */
  lemma ContributeBoth(a: seq<Planned>, b: seq<Planned>, m: nat, ids: set<ChangeId>)
    requires Contribution(a, m) && Contribution(b, m) && IdSet(a) !! IdSet(b)
    ensures Contribution(a + b, m) && IdSet(a + b) == IdSet(a) + IdSet(b)
    ensures ClosedIn(a + b, ids) <==> ClosedIn(a, ids) && ClosedIn(b, ids)
  {
    Join(a, b);
    forall p ensures p in a + b <==> p in a || p in b { }
  }

  /** One more possible change of the same module. */
  lemma AddWhen(ps: seq<Planned>, m: nat, condition: bool, id: ChangeId, dependencies: seq<ChangeId>,
                ids: set<ChangeId>)
    requires Contribution(ps, m) && Module(id) == m && id !in IdSet(ps) && Orderly(Planned(id, dependencies))
    ensures Contribution(ps + When(condition, id, dependencies), m)
    ensures IdSet(ps + When(condition, id, dependencies)) == IdSet(ps) + if condition then {id} else {}
    ensures ClosedIn(ps + When(condition, id, dependencies), ids) <==>
            ClosedIn(ps, ids) && (condition ==> forall d :: d in dependencies ==> d in ids)
  {
    WhenContributes(condition, id, dependencies, ids);
    ContributeBoth(ps, When(condition, id, dependencies), m, ids);
  }

  lemma StackContributes(cgroups: bool, engine: bool, service: bool, ids: set<ChangeId>)
    requires (cgroups ==> DockerCgroups in ids) && (engine ==> DockerEngine in ids)
    ensures Contribution(DockerStack(cgroups, engine, service), 1)
            && ClosedIn(DockerStack(cgroups, engine, service), ids)
    ensures IdSet(DockerStack(cgroups, engine, service)) ==
            (if cgroups then {DockerCgroups} else {}) + (if engine then {DockerEngine} else {}) +
              (if service then {DockerService} else {})
  {
    var p1 := When(cgroups, DockerCgroups, []);
    var p2 := p1 + When(engine, DockerEngine, []);
    WhenContributes(cgroups, DockerCgroups, [], ids);
    AddWhen(p1, 1, engine, DockerEngine, [], ids);
    AddWhen(p2, 1, service, DockerService, If(cgroups, DockerCgroups) + If(engine, DockerEngine), ids);
  }

  lemma StopContributes(family: Family, d: DockerFacts)
    requires DockerStop(family, d).Some?
    ensures var ps := DockerStop(family, d).value;
            Contribution(ps, 1) && ClosedIn(ps, IdSet(ps)) && DockerCompose !in IdSet(ps) && DockerService !in IdSet(ps)
  {
    OneContributes(Planned(DockerCgroups, []));
    OneContributes(Planned(DockerConflict, []));
    OneContributes(Planned(DockerRepository, []));
    OneContributes(Planned(DockerEngine, []));
  }

  lemma DockerContributes(host: Host, cfg: Config)
    ensures Contribution(DockerPlan(host, cfg), 1)
    ensures DockerService in IdSet(DockerPlan(host, cfg)) <==> StackPlanned(host, cfg) && !DockerReady(host.docker)
    ensures DockerCompose in IdSet(DockerPlan(host, cfg)) <==> StackPlanned(host, cfg) && ComposePlanned(host, cfg)
    ensures StackPlanned(host, cfg) && NeedEngine(host.family, host.docker) ==>
              DockerEngine in IdSet(DockerPlan(host, cfg))
  {
    if !cfg.docker && cfg.services == [] {
    } else if DockerStop(host.family, host.docker).Some? {
      StopContributes(host.family, host.docker);
    } else {
      StackAndCompose(host.family.Alpine? && host.docker.cgroupsServicePending, NeedEngine(host.family, host.docker),
                      !DockerReady(host.docker), ComposePlanned(host, cfg), ComposeDependencies(host), {});
    }
  }

  /** The Docker planner's own dependencies are planned, except where Void's Compose change dangles. */
  lemma DockerClosed(host: Host, cfg: Config, ids: set<ChangeId>)
    requires IdSet(DockerPlan(host, cfg)) <= ids
    requires DockerService in ids <==> StackPlanned(host, cfg) && !DockerReady(host.docker)
    ensures ClosedIn(DockerPlan(host, cfg), ids) <==> !VoidComposeDangles(host, cfg)
  {
    DockerContributes(host, cfg);
    if !cfg.docker && cfg.services == [] {
    } else if DockerStop(host.family, host.docker).Some? {
      StopContributes(host.family, host.docker);
    } else {
      StackAndCompose(host.family.Alpine? && host.docker.cgroupsServicePending, NeedEngine(host.family, host.docker),
                      !DockerReady(host.docker), ComposePlanned(host, cfg), ComposeDependencies(host), ids);
      ComposeDependenciesIn(host, ids);
    }
  }

  lemma StackAndCompose(cgroups: bool, engine: bool, service: bool, planned: bool, dependencies: seq<ChangeId>,
                        ids: set<ChangeId>)
    requires Orderly(Planned(DockerCompose, dependencies))
    ensures var ps := DockerStack(cgroups, engine, service) + When(planned, DockerCompose, dependencies);
            && Contribution(ps, 1)
            && (DockerService in IdSet(ps) <==> service) && (DockerCompose in IdSet(ps) <==> planned)
            && (engine ==> DockerEngine in IdSet(ps))
            && (IdSet(ps) <= ids ==> (ClosedIn(ps, ids) <==> (planned ==> forall d :: d in dependencies ==> d in ids)))
  {
    var stack := DockerStack(cgroups, engine, service);
    StackContributes(cgroups, engine, service, {DockerCgroups, DockerEngine});
    AddWhen(stack, 1, planned, DockerCompose, dependencies, ids);
    if IdSet(stack) <= ids {
      StackContributes(cgroups, engine, service, ids);
    }
  }

  lemma ContributedIds(a: seq<Planned>, b: seq<Planned>)
    ensures IdSet(a + b) == IdSet(a) + IdSet(b)
  {
    forall p ensures p in a + b <==> p in a || p in b { }
  }

  lemma ComposeDependenciesIn(host: Host, ids: set<ChangeId>)
    requires NeedEngine(host.family, host.docker) ==> DockerEngine in ids
    requires DockerService in ids <==> !DockerReady(host.docker)
    ensures (forall x :: x in ComposeDependencies(host) ==> x in ids) <==>
              !(host.family.Void? && DockerReady(host.docker))
  {
    if host.family.Void? {
      assert DockerService in ComposeDependencies(host);
    }
  }

  lemma PairContributes(package: bool, service: bool, needed: bool)
    requires needed ==> package
    ensures SelfContained(TailscalePair(package, service, needed), 5)
  {
    var p1, before := When(package, TailscalePackage, []), If(needed, TailscalePackage);
    var ids := (if package then {TailscalePackage} else {}) + (if service then {TailscaleService} else {});
    WhenContributes(package, TailscalePackage, [], ids);
    AddWhen(p1, 5, service, TailscaleService, before, ids);
  }

  /** A contribution whose dependencies are all its own. */
  ghost predicate SelfContained(ps: seq<Planned>, m: nat) {
    Contribution(ps, m) && ClosedIn(ps, IdSet(ps))
  }

  lemma TailscaleContributes(host: Host, cfg: Config)
    ensures SelfContained(TailscalePlan(host, cfg), 5)
  {
    var ps := TailscalePlan(host, cfg);
    if package, service, needed :| ps == TailscalePair(package, service, needed) && (needed ==> package) {
      PairContributes(package, service, needed);
    } else {
      TailscaleOtherwise(host, cfg);
    }
  }

  lemma TailscaleOtherwise(host: Host, cfg: Config)
    requires forall package, service, needed :: (needed ==> package) ==>
      TailscalePlan(host, cfg) != TailscalePair(package, service, needed)
    ensures SelfContained(TailscalePlan(host, cfg), 5)
  {
    OneContributes(Planned(TailscalePackage, []));
    OneContributes(Planned(TailscaleRepository, []));
    assert TailscalePair(false, false, false) == [];
  }

  ghost function ResourceNames(resources: seq<StorageResource>): set<string> {
    set resource | resource in resources :: resource.name
  }

  ghost predicate ValidResources(resources: seq<StorageResource>) {
    && (forall i :: 0 <= i < |resources| ==> ValidName(resources[i].name))
    && forall i, j :: 0 <= i < j < |resources| ==> resources[i].name != resources[j].name
  }

  lemma LastResource(resources: seq<StorageResource>)
    requires resources != [] && ValidResources(resources)
    ensures var n := |resources| - 1;
            && ValidResources(resources[..n]) && resources[n].name !in ResourceNames(resources[..n])
            && ResourceNames(resources) == ResourceNames(resources[..n]) + {resources[n].name}
  {
    var n := |resources| - 1;
    assert resources == resources[..n] + [resources[n]];
  }

  lemma {:induction false} StorageContributes(host: Host, resources: seq<StorageResource>)
    requires ValidResources(resources)
    ensures SelfContained(StoragePlan(host, resources), 4)
    ensures forall id :: id in IdSet(StoragePlan(host, resources)) ==>
              id.StorageStep? && id.resource in ResourceNames(resources)
  {
    if resources == [] {
    } else {
      var n := |resources| - 1;
      LastResource(resources);
      StorageContributes(host, resources[..n]);
      ResourceContributes(host, resources[n]);
      AddSelfContained(StoragePlan(host, resources[..n]), ResourcePlan(host, resources[n]), 4);
    }
  }

  lemma AddSelfContained(before: seq<Planned>, last: seq<Planned>, m: nat)
    requires SelfContained(before, m) && SelfContained(last, m) && IdSet(before) !! IdSet(last)
    ensures SelfContained(before + last, m) && IdSet(before + last) == IdSet(before) + IdSet(last)
  {
    ContributeBoth(before, last, m, IdSet(before) + IdSet(last));
  }

  lemma {:induction false} MountPlanned(host: Host, resources: seq<StorageResource>, i: nat)
    requires ValidResources(resources) && i < |resources| && Mountable(host, resources[i])
    ensures StorageStep(resources[i].name, Mount) in IdSet(StoragePlan(host, resources))
  {
    var n := |resources| - 1;
    LastResource(resources);
    ContributedIds(StoragePlan(host, resources[..n]), ResourcePlan(host, resources[n]));
    if i < n {
      MountPlanned(host, resources[..n], i);
    } else {
      ResourceContributes(host, resources[n]);
    }
  }

  lemma ResourceContributes(host: Host, resource: StorageResource)
    requires ValidName(resource.name)
    ensures SelfContained(ResourcePlan(host, resource), 4)
    ensures forall id :: id in IdSet(ResourcePlan(host, resource)) ==> id.StorageStep? && id.resource == resource.name
    ensures Mountable(host, resource) ==> StorageStep(resource.name, Mount) in IdSet(ResourcePlan(host, resource))
  {
    var ps := ResourcePlan(host, resource);
    if Mountable(host, resource) {
      assert ps[0] in ps && ps[1] in ps && ps[2] in ps;
    }
  }

  lemma {:induction false} FindResourceIn(resources: seq<StorageResource>, name: string)
    ensures FindResource(resources, name).Some? ==>
      exists i :: 0 <= i < |resources| && resources[i] == FindResource(resources, name).value
        && resources[i].name == name
  {
    if resources != [] && resources[0].name != name {
      FindResourceIn(resources[1..], name);
      assert forall i :: 0 <= i < |resources[1..]| ==> resources[1..][i] == resources[i + 1];
    }
  }

  /** A service waits for the mount of a resource only when the storage planner mounts it. */
  lemma {:induction false} StorageDependenciesPlanned(host: Host, cfg: Config, data: seq<DataResource>,
                                                      seen: set<string>, ids: set<ChangeId>)
    requires ValidResources(cfg.resources) && IdSet(StoragePlan(host, cfg.resources)) <= ids
    ensures forall d :: d in StorageDependencies(host, cfg, data, seen) ==> d in ids && ValidId(d) && Rank(d) == 2
  {
    if data != [] {
      StorageDependenciesPlanned(host, cfg, data[1..], seen, ids);
      StorageDependenciesPlanned(host, cfg, data[1..], seen + {data[0].storage}, ids);
      FindResourceIn(cfg.resources, data[0].storage);
      if i :| 0 <= i < |cfg.resources| && FindResource(cfg.resources, data[0].storage) == Some(cfg.resources[i])
                && Mountable(host, cfg.resources[i]) {
        MountPlanned(host, cfg.resources, i);
      }
    }
  }

  ghost function DataNames(data: seq<DataResource>): set<string> {
    set resource | resource in data :: resource.name
  }

  lemma LastData(data: seq<DataResource>)
    requires data != [] && ValidData(data)
    ensures var n := |data| - 1;
            && ValidData(data[..n]) && data[n].name !in DataNames(data[..n])
            && DataNames(data) == DataNames(data[..n]) + {data[n].name}
  {
    var n := |data| - 1;
    assert data == data[..n] + [data[n]];
  }

  lemma {:induction false} ReviewsContribute(service: string, data: seq<DataResource>)
    requires ValidName(service) && ValidData(data)
    ensures Contribution(SelinuxReviews(service, data), 2) && ClosedIn(SelinuxReviews(service, data), {})
    ensures forall id :: id in IdSet(SelinuxReviews(service, data)) ==>
      id.SelinuxReview? && id.service == service && id.resource in DataNames(data)
  {
    if data == [] {
    } else {
      var n := |data| - 1;
      LastData(data);
      ReviewsContribute(service, data[..n]);
      AddWhen(SelinuxReviews(service, data[..n]), 2,
              NeedsReview(data[n]), SelinuxReview(service, data[n].name), [], {});
    }
  }

  /** What the host shows of a service is not what its declaration asks for. */
  predicate Outstanding(facts: ServiceFacts, state: State) {
    match state
    case Absent => facts.present || facts.unsafe || !facts.runtime.NoContainers?
    case Running => DeploymentChanged(facts) || !facts.runtime.RunningNow?
    case Stopped => DeploymentChanged(facts) || !(facts.runtime.StoppedNow? || facts.runtime.NoContainers?)
  }

  /** The service has something outstanding that no review of its data holds up. */
  predicate Dependent(host: Host, deployment: Deployment) {
    !SelinuxBlocked(host, deployment) && Outstanding(host.service(deployment.name), deployment.state)
  }

  /** Those are the services that emit changes waiting for the host to be prepared. */
  lemma DependentEmits(host: Host, cfg: Config, deployment: Deployment)
    ensures Dependent(host, deployment) <==>
            !SelinuxBlocked(host, deployment) && DeploymentPlan(host, cfg, deployment) != []
  {
  }

  predicate EmitsDependent(host: Host, cfg: Config) {
    exists deployment | deployment in cfg.services :: Dependent(host, deployment)
  }

  ghost function Names(services: seq<Deployment>): set<string> {
    set deployment | deployment in services :: deployment.name
  }

  lemma DeploymentContributes(host: Host, cfg: Config, deployment: Deployment)
    requires ValidConfig(cfg) && ValidName(deployment.name) && ValidData(deployment.data)
    ensures Contribution(DeploymentPlan(host, cfg, deployment), 2)
    ensures forall id :: id in IdSet(DeploymentPlan(host, cfg, deployment)) ==>
      (id.ServiceChange? || id.SelinuxReview?) && id.service == deployment.name
  {
    var ps := DeploymentPlan(host, cfg, deployment);
    if SelinuxBlocked(host, deployment) {
      ReviewsContribute(deployment.name, deployment.data);
    } else {
      var storage := if deployment.state.Absent? then [] else StorageDependencies(host, cfg, deployment.data, {});
      StorageContributes(host, cfg.resources);
      StorageDependenciesPlanned(host, cfg, deployment.data, {}, IdSet(StoragePlan(host, cfg.resources)));
      SharedRanks(host, storage);
      var shared := ServiceDependencies(host) + storage;
      PlanUsesShared(host, cfg, deployment, shared);
      OrderlyFromShared(ps, deployment.name, shared);
    }
  }

  lemma OrderlyFromShared(ps: seq<Planned>, name: string, shared: seq<ChangeId>)
    requires ValidName(name) && UsesShared(ps, name, shared)
    requires forall d :: d in shared ==> ValidId(d) && Rank(d) < 4
    ensures Contribution(ps, 2)
    ensures forall id :: id in IdSet(ps) ==> id.ServiceChange? && id.service == name
  {
  }

  /** Every change of one service waits for all of `shared`, and apart from that only for its own deployment. */
  ghost predicate UsesShared(ps: seq<Planned>, name: string, shared: seq<ChangeId>) {
    && DistinctPlan(ps)
    && forall p :: p in ps ==>
      && p.id.ServiceChange? && p.id.service == name && shared <= p.dependencies
      && forall d :: d in p.dependencies ==> d in shared || (d in IdSet(ps) && DeploysBefore(d, p.id))
  }

  predicate DeploysBefore(d: ChangeId, id: ChangeId) {
    && d.ServiceChange? && id.ServiceChange? && d.service == id.service
    && (d.serviceStep.Deploy? || d.serviceStep.Update? || d.serviceStep.Placement?)
    && (id.serviceStep.Start? || id.serviceStep.Stop?)
  }

  lemma SharedRanks(host: Host, storage: seq<ChangeId>)
    requires forall d :: d in storage ==> ValidId(d) && Rank(d) == 2
    ensures forall d :: d in ServiceDependencies(host) + storage ==> ValidId(d) && Rank(d) < 4
  {
  }

  /** A deployment's changes find their dependencies exactly when it has none or the Docker ones are planned. */
  lemma DeploymentClosed(host: Host, cfg: Config, deployment: Deployment, ids: set<ChangeId>)
    requires ValidConfig(cfg) && ValidName(deployment.name) && ValidData(deployment.data)
    requires IdSet(StoragePlan(host, cfg.resources)) <= ids && IdSet(BasePlan(host)) <= ids
    requires IdSet(DeploymentPlan(host, cfg, deployment)) <= ids
    ensures ClosedIn(DeploymentPlan(host, cfg, deployment), ids) <==>
            (Dependent(host, deployment) ==> DockerNeedsIn(host, ids))
  {
    DependentEmits(host, cfg, deployment);
    EmittedClosed(host, cfg, deployment, ids);
  }

  lemma EmittedClosed(host: Host, cfg: Config, deployment: Deployment, ids: set<ChangeId>)
    requires ValidConfig(cfg) && ValidName(deployment.name) && ValidData(deployment.data)
    requires IdSet(StoragePlan(host, cfg.resources)) <= ids && IdSet(BasePlan(host)) <= ids
    requires IdSet(DeploymentPlan(host, cfg, deployment)) <= ids
    ensures var ps := DeploymentPlan(host, cfg, deployment);
            ClosedIn(ps, ids) <==> (!SelinuxBlocked(host, deployment) && ps != [] ==> DockerNeedsIn(host, ids))
  {
    var ps := DeploymentPlan(host, cfg, deployment);
    if SelinuxBlocked(host, deployment) {
      ReviewsContribute(deployment.name, deployment.data);
    } else if ps != [] {
      var storage := if deployment.state.Absent? then [] else StorageDependencies(host, cfg, deployment.data, {});
      StorageContributes(host, cfg.resources);
      StorageDependenciesPlanned(host, cfg, deployment.data, {}, ids);
      var shared := ServiceDependencies(host) + storage;
      SharedDependencies(host, storage, ids);
      PlanUsesShared(host, cfg, deployment, shared);
      ClosedByShared(ps, shared, ids);
    }
  }

  lemma ClosedByShared(ps: seq<Planned>, shared: seq<ChangeId>, ids: set<ChangeId>)
    requires ps != [] && IdSet(ps) <= ids
    requires forall p :: p in ps ==>
               shared <= p.dependencies && forall d :: d in p.dependencies ==> d in shared || d in IdSet(ps)
    ensures ClosedIn(ps, ids) <==> forall d :: d in shared ==> d in ids
  {
    assert ps[0] in ps;
    assert forall d :: d in shared ==> d in ps[0].dependencies;
  }

  /** The Docker changes every dependent service change names are among `ids`. */
  predicate DockerNeedsIn(host: Host, ids: set<ChangeId>) {
    && (!host.docker.installed || !DockerReady(host.docker) ==> DockerService in ids)
    && (!host.docker.composeAvailable ==> DockerCompose in ids)
  }

  lemma SharedDependencies(host: Host, storage: seq<ChangeId>, ids: set<ChangeId>)
    requires forall d :: d in storage ==> d in ids && ValidId(d) && Rank(d) == 2
    requires IdSet(BasePlan(host)) <= ids
    ensures forall d :: d in ServiceDependencies(host) + storage ==> ValidId(d) && Rank(d) < 4
    ensures (forall d :: d in ServiceDependencies(host) + storage ==> d in ids) <==> DockerNeedsIn(host, ids)
  {
    BaseContributes(host);
    var d := host.docker;
    var base := if !host.dataRootExists then [DataRoot] else If(!host.dataRootCorrect, DataRootPermissions);
    var service, compose := If(!d.installed || !DockerReady(d), DockerService), If(!d.composeAvailable, DockerCompose);
    assert ServiceDependencies(host) == base + service + compose;
    assert forall x :: x in ServiceDependencies(host) + storage <==>
             x in base || x in service || x in compose || x in storage;
    assert forall x :: x in base ==> x in IdSet(BasePlan(host));
  }

  lemma PlanUsesShared(host: Host, cfg: Config, deployment: Deployment, shared: seq<ChangeId>)
    requires !SelinuxBlocked(host, deployment)
    requires shared == ServiceDependencies(host)
                       + (if deployment.state.Absent? then [] else StorageDependencies(host, cfg, deployment.data, {}))
    ensures UsesShared(DeploymentPlan(host, cfg, deployment), deployment.name, shared)
  {
    var ps := DeploymentPlan(host, cfg, deployment);
    var name, facts := deployment.name, host.service(deployment.name);
    if !deployment.state.Absent? {
      var changed := DeploymentChanged(facts);
      var deploy := ServiceChange(name, DeployStep(facts));
      var first := When(changed, deploy, shared);
      var second :=
        if deployment.state.Running? then
          When(changed || !facts.runtime.RunningNow?, ServiceChange(name, Start), shared + If(changed, deploy))
        else
          When(!facts.runtime.StoppedNow? && !facts.runtime.NoContainers?, ServiceChange(name, Stop),
               shared + If(changed, deploy));
      assert ps == first + second;
      assert changed ==> first[0] in ps && first[0].id == deploy;
    }
  }

  /** The first services of a valid configuration are as valid as the whole. */
  ghost predicate ValidServices(services: seq<Deployment>) {
    && (forall i :: 0 <= i < |services| ==> ValidName(services[i].name) && ValidData(services[i].data))
    && forall i, j :: 0 <= i < j < |services| ==> services[i].name != services[j].name
  }

  lemma {:induction false} ServicesContribute(host: Host, cfg: Config, services: seq<Deployment>)
    requires ValidConfig(cfg) && ValidServices(services)
    ensures Contribution(ServicesPlan(host, cfg, services), 2)
    ensures forall id :: id in IdSet(ServicesPlan(host, cfg, services)) ==>
      (id.ServiceChange? || id.SelinuxReview?) && id.service in Names(services)
  {
    if services == [] {
    } else {
      var n := |services| - 1;
      var before, last := services[..n], services[n];
      ServicesContribute(host, cfg, before);
      DeploymentContributes(host, cfg, last);
      LastName(services);
      ContributeBoth(ServicesPlan(host, cfg, before), DeploymentPlan(host, cfg, last), 2, {});
    }
  }

  lemma LastName(services: seq<Deployment>)
    requires services != [] && ValidServices(services)
    ensures var n := |services| - 1;
            services[n].name !in Names(services[..n]) && Names(services) == Names(services[..n]) + {services[n].name}
  {
    var n := |services| - 1;
    assert services == services[..n] + [services[n]];
  }

  ghost predicate Any<T>(s: seq<T>, p: T -> bool) {
    s != [] && (Any(s[..|s| - 1], p) || p(s[|s| - 1]))
  }

  lemma {:induction false} AnyMeansSome<T>(s: seq<T>, p: T -> bool)
    ensures Any(s, p) <==> exists i :: 0 <= i < |s| && p(s[i])
  {
    if s != [] {
      var n := |s| - 1;
      AnyMeansSome(s[..n], p);
      assert forall i :: 0 <= i < n ==> s[..n][i] == s[i];
    }
  }

  ghost predicate SomeDependent(host: Host, cfg: Config, services: seq<Deployment>) {
    Any(services, (deployment: Deployment) => Dependent(host, deployment))
  }

  lemma {:induction false} ServicesClosed(host: Host, cfg: Config, services: seq<Deployment>, ids: set<ChangeId>)
    requires ValidConfig(cfg) && ValidServices(services)
    requires IdSet(StoragePlan(host, cfg.resources)) <= ids && IdSet(BasePlan(host)) <= ids
    requires IdSet(ServicesPlan(host, cfg, services)) <= ids
    ensures ClosedIn(ServicesPlan(host, cfg, services), ids) <==>
            (SomeDependent(host, cfg, services) ==> DockerNeedsIn(host, ids))
  {
    if services != [] {
      var n := |services| - 1;
      var before, last := services[..n], services[n];
      var ps, qs := ServicesPlan(host, cfg, before), DeploymentPlan(host, cfg, last);
      forall p ensures p in ps + qs <==> p in ps || p in qs { }
      assert IdSet(ps) <= IdSet(ps + qs) && IdSet(qs) <= IdSet(ps + qs);
      ServicesClosed(host, cfg, before, ids);
      DeploymentClosed(host, cfg, last, ids);
    }
  }

  // ---- all modules together

  /** What the first `m` modules gave: distinct, valid, and falling in rank along dependencies. */
  ghost predicate Gathered(ps: seq<Planned>, m: nat) {
    DistinctPlan(ps) && forall p :: p in ps ==> Module(p.id) < m && Orderly(p)
  }

  lemma Gather(a: seq<Planned>, b: seq<Planned>, m: nat, ids: set<ChangeId>)
    requires Gathered(a, m) && Contribution(b, m)
    ensures Gathered(a + b, m + 1) && IdSet(a + b) == IdSet(a) + IdSet(b)
    ensures ClosedIn(a + b, ids) <==> ClosedIn(a, ids) && ClosedIn(b, ids)
  {
    Join(a, b);
    forall p ensures p in a + b <==> p in a || p in b { }
  }

  /** One contribution of each module, in order. */
  ghost predicate Parts(ps: seq<seq<Planned>>) {
    forall m :: 0 <= m < |ps| ==> Contribution(ps[m], m)
  }

  lemma {:induction false} GatherAll(ps: seq<seq<Planned>>, ids: set<ChangeId>)
    requires Parts(ps)
    ensures Gathered(Flatten(ps), |ps|)
    ensures ClosedIn(Flatten(ps), ids) <==> forall m :: 0 <= m < |ps| ==> ClosedIn(ps[m], ids)
  {
    if ps != [] {
      var n := |ps| - 1;
      GatherAll(ps[..n], ids);
      assert forall m :: 0 <= m < n ==> ps[..n][m] == ps[m];
      Gather(Flatten(ps[..n]), ps[n], n, ids);
    }
  }

  lemma {:induction false} PartIds(ps: seq<seq<Planned>>, m: nat)
    requires Parts(ps) && m < |ps|
    ensures IdSet(ps[m]) <= IdSet(Flatten(ps))
    ensures forall id :: id in IdSet(Flatten(ps)) && Module(id) == m ==> id in IdSet(ps[m])
  {
    var n := |ps| - 1;
    ContributedIds(Flatten(ps[..n]), ps[n]);
    GatherAll(ps[..n], {});
    if m < n {
      PartIds(ps[..n], m);
      assert ps[..n][m] == ps[m];
    }
  }

  lemma ModulesContribute(host: Host, cfg: Config)
    requires ValidConfig(cfg)
    ensures Parts(ModulePlans(host, cfg))
  {
    forall m | 0 <= m < 7
      ensures Contribution(ModulePlan(host, cfg, m), m)
    {
      ModuleContributes(host, cfg, m);
    }
  }

  lemma ModuleContributes(host: Host, cfg: Config, m: nat)
    requires ValidConfig(cfg) && m < 7
    ensures Contribution(ModulePlan(host, cfg, m), m)
  {
    match m
    case 0 => BaseContributes(host);
    case 1 => DockerContributes(host, cfg);
    case 2 => ServicesContribute(host, cfg, cfg.services);
    case 3 => WhenContributes(cfg.sshHardening && host.sshNeedsHardening, SshHardening, [], {});
    case 4 => StorageContributes(host, cfg.resources);
    case 5 => TailscaleContributes(host, cfg);
    case 6 => WhenContributes(cfg.automaticUpdates && host.updatesNeeded, UnattendedUpdates, [], {});
  }

  /** All parts but the Docker and service planners' are closed by themselves. */
  lemma OtherPartClosed(host: Host, cfg: Config, ids: set<ChangeId>, m: nat)
    requires ValidConfig(cfg) && m < 7 && m != 1 && m != 2 && IdSet(ModulePlan(host, cfg, m)) <= ids
    ensures ClosedIn(ModulePlan(host, cfg, m), ids)
  {
    match m
    case 0 => BaseContributes(host);
    case 3 => WhenContributes(cfg.sshHardening && host.sshNeedsHardening, SshHardening, [], ids);
    case 4 => StorageContributes(host, cfg.resources);
    case 5 => TailscaleContributes(host, cfg);
    case 6 => WhenContributes(cfg.automaticUpdates && host.updatesNeeded, UnattendedUpdates, [], ids);
  }

  lemma OnlyTwoMatter(host: Host, cfg: Config)
    requires ValidConfig(cfg)
    ensures var ids := IdSet(Collected(host, cfg));
            && (forall m :: 0 <= m < 7 ==> IdSet(ModulePlan(host, cfg, m)) <= ids)
            && (DockerService in ids <==> DockerService in IdSet(DockerPlan(host, cfg)))
            && (DockerCompose in ids <==> DockerCompose in IdSet(DockerPlan(host, cfg)))
            && (ClosedIn(Collected(host, cfg), ids) <==>
                  ClosedIn(DockerPlan(host, cfg), ids) && ClosedIn(ServicesPlan(host, cfg, cfg.services), ids))
  {
    var ps, ids := ModulePlans(host, cfg), IdSet(Collected(host, cfg));
    ModulesContribute(host, cfg);
    GatherAll(ps, ids);
    forall m | 0 <= m < 7
      ensures IdSet(ModulePlan(host, cfg, m)) <= ids
    {
      PartIds(ps, m);
    }
    PartIds(ps, 1);
    assert forall m :: 0 <= m < 7 ==> ps[m] == ModulePlan(host, cfg, m);
    forall m | 0 <= m < 7 && m != 1 && m != 2
      ensures ClosedIn(ps[m], ids)
    {
      OtherPartClosed(host, cfg, ids, m);
    }
    assert ps[1] == DockerPlan(host, cfg) && ps[2] == ServicesPlan(host, cfg, cfg.services);
    assert Module(DockerService) == 1 && Module(DockerCompose) == 1;
  }

  /** Some dependent service names a Docker change that is not planned, or Void's Compose change dangles. */
  predicate Unmet(host: Host, cfg: Config) {
    || VoidComposeDangles(host, cfg)
    || (EmitsDependent(host, cfg) &&
        (|| ((!host.docker.installed || !DockerReady(host.docker))
             && !(StackPlanned(host, cfg) && !DockerReady(host.docker)))
         || (!host.docker.composeAvailable && !(StackPlanned(host, cfg) && ComposePlanned(host, cfg)))))
  }

  /** The union of the modules is closed exactly when nothing is unmet. */
  lemma CollectedClosed(host: Host, cfg: Config)
    requires ValidConfig(cfg)
    ensures ClosedIn(Collected(host, cfg), IdSet(Collected(host, cfg))) <==> !Unmet(host, cfg)
  {
    var ids := IdSet(Collected(host, cfg));
    OnlyTwoMatter(host, cfg);
    DockerContributes(host, cfg);
    assert IdSet(ModulePlan(host, cfg, 0)) <= ids && IdSet(ModulePlan(host, cfg, 1)) <= ids;
    assert IdSet(ModulePlan(host, cfg, 2)) <= ids && IdSet(ModulePlan(host, cfg, 4)) <= ids;
    DockerClosed(host, cfg, ids);
    ServicesClosed(host, cfg, cfg.services, ids);
    EmitsMeansSome(host, cfg);
  }

  lemma EmitsMeansSome(host: Host, cfg: Config)
    ensures EmitsDependent(host, cfg) <==> SomeDependent(host, cfg, cfg.services)
  {
    AnyMeansSome(cfg.services, (deployment: Deployment) => Dependent(host, deployment));
  }
}
