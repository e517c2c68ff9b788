/** Which changes are planned, and what each waits for. */
module PlanReasons {
  // A second definition of the plan, pointwise on change IDs and in terms of the host's facts alone; the planners'
  // lists are proved to be exactly what it says.

  import opened Text
  import opened ChangeIds
  import opened Planner
  import opened PlanClosure
  import opened PlanFinalizes
  import opened PlanGraph

  // ---- Docker

  predicate DockerWanted(cfg: Config) {
    cfg.docker || |cfg.services| > 0
  }

  /** The package, and where the family's source asks for them the package set and the repository, are in place. */
  predicate EngineInPlace(family: Family, d: DockerFacts) {
    && d.installed
    && (family != Apt ==> d.packageSetComplete)
    && (family == Alpine || family == EnterpriseLinux ==> d.repositoryManaged)
  }

  /** Nothing keeps the planner from planning the stack. */
  predicate Unhindered(family: Family, d: DockerFacts) {
    && (family == OpenSuse || family == Fedora || family == EnterpriseLinux ==> !d.conflicting)
    && (family == EnterpriseLinux || family == Void ==> !d.repositoryUnmanaged && d.sourceReviewed)
    && (family == Void ==> !d.held)
    && (family == Artix || family == Alpine || family == Void ==> d.cgroupsAvailable)
  }

  predicate ServiceUp(d: DockerFacts) {
    d.enabled && d.active && d.responsive
  }

  ghost predicate DockerDue(host: Host, cfg: Config, id: ChangeId) {
    var family, d := host.family, host.docker;
    DockerWanted(cfg) &&
    match id
    case DockerConflict => d.conflicting && (family == OpenSuse || family == Fedora || family == EnterpriseLinux)
    case DockerRepository => family == EnterpriseLinux && !d.conflicting && d.repositoryUnmanaged
    case DockerCgroups =>
      || (!d.cgroupsAvailable && (family == Artix || family == Alpine))
      || (!d.cgroupsAvailable && family == Void && d.sourceReviewed && !d.repositoryUnmanaged && !d.held)
      || (d.cgroupsServicePending && family == Alpine)
    case DockerEngine =>
      || (Unhindered(family, d) && !EngineInPlace(family, d))
      || (family == Void && (!d.sourceReviewed || d.repositoryUnmanaged || d.held))
    case DockerService => Unhindered(family, d) && !ServiceUp(d)
    case DockerCompose =>
      && Unhindered(family, d) && !d.composeAvailable && |cfg.services| > 0
      && family != Alpine && family != Devuan && family != Artix && (family == Void ==> EngineInPlace(family, d))
    case _ => false
  }

  // ---- Tailscale

  predicate RpmFamily(family: Family) {
    family == Fedora || family == EnterpriseLinux || family == OpenSuse
  }

  /** Packages would come from a source the project does not manage, or has not reviewed. */
  predicate Foreign(host: Host) {
    var family, t := host.family, host.tailscale;
    || (t.repositoryUnmanaged && (RpmFamily(family) || family == Devuan || family == Void))
    || (family == Void && !t.sourceReviewed)
  }

  ghost predicate TailscaleDue(host: Host, cfg: Config, id: ChangeId) {
    var family, t := host.family, host.tailscale;
    var rpm := RpmFamily(family);
    cfg.tailscale &&
    match id
    case TailscaleRepository => rpm && t.repositoryUnmanaged
    case TailscalePackage =>
      || (Foreign(host) && !rpm)
      || (!Foreign(host) && (!t.installed || (family == Artix && !t.serviceDefinition)
                             || (!t.repositoryManaged && (rpm || family == Devuan || family == Alpine))))
    case TailscaleService =>
      && !Foreign(host)
      && (!t.ready || (!t.installed && (rpm || family == Apt || family == Arch)))
    case _ => false
  }

  /** Where an installed package is only to be re-sourced, the service does not wait for it. */
  ghost predicate TailscaleWaits(host: Host, cfg: Config, d: ChangeId) {
    && d == TailscalePackage && TailscaleDue(host, cfg, TailscalePackage)
    && (!host.tailscale.installed || host.family == Devuan || host.family == Artix || host.family == Alpine)
  }

  // ---- storage

  predicate Preparable(host: Host, r: StorageResource) {
    r.managed && (host.assess(r.name) == Missing || host.assess(r.name) == RootSpill)
  }

  ghost predicate StorageDue(host: Host, cfg: Config, name: string, step: MountStep) {
    exists r :: r in cfg.resources && r.name == name && host.assess(name) != Ready
                && (step == Blocked <==> !Preparable(host, r))
  }

  /** A declared storage can be put to use: it is ready, or the plan prepares it. */
  ghost predicate Usable(host: Host, cfg: Config, name: string) {
    exists r :: r in cfg.resources && r.name == name && (host.assess(name) == Ready || Preparable(host, r))
  }

  /** Data on `name` makes a service wait for its mount, unless earlier data is on storage that cannot be used. */
  ghost predicate NeedsMount(host: Host, cfg: Config, data: seq<DataResource>, name: string) {
    && name != "" && StorageDue(host, cfg, name, Mount)
    && exists i :: 0 <= i < |data| && data[i].isPath && data[i].storage == name
                   && forall j :: 0 <= j < i && data[j].isPath && data[j].storage != "" ==>
                        Usable(host, cfg, data[j].storage)
  }

  // ---- services

  /** SELinux is enforcing and some bind mount has no shared label: nothing but reviews is planned. */
  ghost predicate AwaitsReview(host: Host, s: Deployment) {
    && host.selinuxEnforcing && s.state != Absent
    && exists r :: r in s.data && r.isPath && !r.selinuxShared
  }

  predicate SourceDiffers(f: ServiceFacts) {
    f.unsafe || !f.present || !f.digestMatches || f.secretDiffers || f.placementDiffers
  }

  /** How a differing source is brought in: an unsafe or missing one anew, unless only the secret or data moved. */
  function DeployKind(f: ServiceFacts): ServiceStep {
    if f.unsafe then Deploy
    else if !f.present then (if f.secretDiffers then Update else if f.placementDiffers then Placement else Deploy)
    else if !f.digestMatches || f.secretDiffers then Update
    else Placement
  }

  ghost predicate StepDue(f: ServiceFacts, state: State, step: ServiceStep) {
    match step
    case Remove => state == Absent && (f.present || f.unsafe || f.runtime != NoContainers)
    case Start => state == Running && (SourceDiffers(f) || f.runtime != RunningNow)
    case Stop => state == Stopped && f.runtime != StoppedNow && f.runtime != NoContainers
    case _ => state != Absent && SourceDiffers(f) && step == DeployKind(f)
  }

  ghost predicate ServiceDue(host: Host, s: Deployment, step: ServiceStep) {
    !AwaitsReview(host, s) && StepDue(host.service(s.name), s.state, step)
  }

  ghost predicate ReviewDue(host: Host, s: Deployment, resource: string) {
    AwaitsReview(host, s) && exists r :: r in s.data && r.name == resource && r.isPath && !r.selinuxShared
  }

  /** What every change of a service waits for. */
  ghost predicate SharedWaits(host: Host, cfg: Config, s: Deployment, d: ChangeId) {
    match d
    case DataRoot => !host.dataRootExists
    case DataRootPermissions => host.dataRootExists && !host.dataRootCorrect
    case DockerService => !host.docker.installed || !ServiceUp(host.docker)
    case DockerCompose => !host.docker.composeAvailable
    case StorageStep(name, Mount) => s.state != Absent && NeedsMount(host, cfg, s.data, name)
    case _ => false
  }

  predicate Deploys(step: ServiceStep) {
    step == Deploy || step == Update || step == Placement
  }

  ghost predicate ServiceWaits(host: Host, cfg: Config, s: Deployment, step: ServiceStep, d: ChangeId) {
    match d
    case ServiceChange(name, earlier) =>
      name == s.name && (step == Start || step == Stop) && Deploys(earlier) && ServiceDue(host, s, earlier)
    case _ => SharedWaits(host, cfg, s, d)
  }

  // ---- the whole plan

  ghost predicate Due(host: Host, cfg: Config, id: ChangeId) {
    match id
    case DataRoot => !host.dataRootExists
    case DataRootPermissions => host.dataRootExists && !host.dataRootCorrect
    case SshHardening => cfg.sshHardening && host.sshNeedsHardening
    case UnattendedUpdates => cfg.automaticUpdates && host.updatesNeeded
    case StorageStep(name, step) => StorageDue(host, cfg, name, step)
    case ServiceChange(name, step) => exists s :: s in cfg.services && s.name == name && ServiceDue(host, s, step)
    case SelinuxReview(name, resource) =>
      exists s :: s in cfg.services && s.name == name && ReviewDue(host, s, resource)
    case _ => DockerDue(host, cfg, id) || TailscaleDue(host, cfg, id)
  }

  ghost predicate WaitsFor(host: Host, cfg: Config, id: ChangeId, d: ChangeId) {
    match id
    case DockerService => (d == DockerCgroups || d == DockerEngine) && DockerDue(host, cfg, d)
    case DockerCompose =>
      if host.family == Void then d == DockerService
      else (d == DockerEngine || d == DockerService) && DockerDue(host, cfg, d)
    case TailscaleService => TailscaleWaits(host, cfg, d)
    case StorageStep(name, MountConfig) => d == StorageStep(name, Mountpoint)
    case StorageStep(name, Mount) => d == StorageStep(name, MountConfig)
    case ServiceChange(name, step) =>
      exists s :: s in cfg.services && s.name == name && ServiceWaits(host, cfg, s, step, d)
    case _ => false
  }

  /** Of `ids`, the list holds exactly the due ones, and each change waits for exactly what it should. */
  ghost predicate SaysOf(host: Host, cfg: Config, ps: seq<Planned>, ids: iset<ChangeId>) {
    && (forall id :: id in IdSet(ps) <==> id in ids && Due(host, cfg, id))
    && forall p, d :: p in ps ==> (d in p.dependencies <==> WaitsFor(host, cfg, p.id, d))
  }

  /** So it is for everything one module plans. */
  ghost predicate Says(host: Host, cfg: Config, ps: seq<Planned>, m: nat) {
    SaysOf(host, cfg, ps, iset id | Module(id) == m)
  }

  lemma IdsJoined(a: seq<Planned>, b: seq<Planned>)
    ensures IdSet(a + b) == IdSet(a) + IdSet(b)
  {
    assert forall p :: p in a + b <==> p in a || p in b;
  }

  lemma SaysBoth(host: Host, cfg: Config, a: seq<Planned>, A: iset<ChangeId>, b: seq<Planned>, B: iset<ChangeId>)
    requires SaysOf(host, cfg, a, A) && SaysOf(host, cfg, b, B)
    ensures SaysOf(host, cfg, a + b, A + B)
  {
    IdsJoined(a, b);
    assert forall p :: p in a + b <==> p in a || p in b;
  }

  /** IDs of which none is due may be added, or left out. */
  lemma SaysNoMore(host: Host, cfg: Config, ps: seq<Planned>, A: iset<ChangeId>, B: iset<ChangeId>)
    requires SaysOf(host, cfg, ps, A) && forall id :: Due(host, cfg, id) ==> (id in A <==> id in B)
    ensures SaysOf(host, cfg, ps, B)
  {
  }

  lemma NothingSays(host: Host, cfg: Config, ids: iset<ChangeId>)
    requires forall id :: id in ids ==> !Due(host, cfg, id)
    ensures SaysOf(host, cfg, [], ids)
  {
  }

  lemma OneSays(host: Host, cfg: Config, condition: bool, id: ChangeId, dependencies: seq<ChangeId>)
    requires condition <==> Due(host, cfg, id)
    requires condition ==> forall d :: d in dependencies <==> WaitsFor(host, cfg, id, d)
    ensures SaysOf(host, cfg, When(condition, id, dependencies), iset{id})
  {
    if condition {
      assert When(condition, id, dependencies) == [Planned(id, dependencies)];
      assert Planned(id, dependencies) in When(condition, id, dependencies);
    }
  }

  lemma AddSays(host: Host, cfg: Config, ps: seq<Planned>, ids: iset<ChangeId>, condition: bool, id: ChangeId,
                dependencies: seq<ChangeId>)
    requires SaysOf(host, cfg, ps, ids)
    requires condition <==> Due(host, cfg, id)
    requires condition ==> forall d :: d in dependencies <==> WaitsFor(host, cfg, id, d)
    ensures SaysOf(host, cfg, ps + When(condition, id, dependencies), ids + iset{id})
  {
    OneSays(host, cfg, condition, id, dependencies);
    SaysBoth(host, cfg, ps, ids, When(condition, id, dependencies), iset{id});
  }

  lemma BaseSays(host: Host, cfg: Config)
    ensures Says(host, cfg, BasePlan(host), 0)
  {
    OneSays(host, cfg, !host.dataRootExists, DataRoot, []);
    AddSays(host, cfg, When(!host.dataRootExists, DataRoot, []), iset{DataRoot},
            host.dataRootExists && !host.dataRootCorrect, DataRootPermissions, []);
    SaysNoMore(host, cfg, BasePlan(host), iset{DataRoot} + iset{DataRootPermissions}, iset id | Module(id) == 0);
  }

  lemma SshSays(host: Host, cfg: Config)
    ensures Says(host, cfg, ModulePlan(host, cfg, 3), 3) && Says(host, cfg, ModulePlan(host, cfg, 6), 6)
  {
    OneSays(host, cfg, cfg.sshHardening && host.sshNeedsHardening, SshHardening, []);
    SaysNoMore(host, cfg, ModulePlan(host, cfg, 3), iset{SshHardening}, iset id | Module(id) == 3);
    OneSays(host, cfg, cfg.automaticUpdates && host.updatesNeeded, UnattendedUpdates, []);
    SaysNoMore(host, cfg, ModulePlan(host, cfg, 6), iset{UnattendedUpdates}, iset id | Module(id) == 6);
  }

  const DOCKER_IDS: iset<ChangeId> :=
    iset{DockerCgroups, DockerConflict, DockerRepository, DockerEngine, DockerService, DockerCompose}

  lemma DockerSays(host: Host, cfg: Config)
    ensures Says(host, cfg, DockerPlan(host, cfg), 1)
  {
    assert DOCKER_IDS == iset id | Module(id) == 1;
    if !DockerWanted(cfg) {
      NothingSays(host, cfg, DOCKER_IDS);
    } else if DockerStop(host.family, host.docker).Some? {
      StopSays(host, cfg);
    } else {
      StackSays(host, cfg);
    }
  }

  lemma StopSays(host: Host, cfg: Config)
    requires DockerWanted(cfg) && DockerStop(host.family, host.docker).Some?
    ensures SaysOf(host, cfg, DockerPlan(host, cfg), DOCKER_IDS)
  {
    var ps := DockerPlan(host, cfg);
    assert !Unhindered(host.family, host.docker);
    if ps == [] {
      NothingSays(host, cfg, DOCKER_IDS);
    } else {
      var id := ps[0].id;
      assert ps == When(true, id, []);
      OneSays(host, cfg, true, id, []);
      SaysNoMore(host, cfg, ps, iset{id}, DOCKER_IDS);
    }
  }

  lemma StackSays(host: Host, cfg: Config)
    requires DockerWanted(cfg) && DockerStop(host.family, host.docker).None?
    ensures SaysOf(host, cfg, DockerPlan(host, cfg), DOCKER_IDS)
  {
    var d, family := host.docker, host.family;
    var cgroups, engine, service := family.Alpine? && d.cgroupsServicePending, NeedEngine(family, d), !DockerReady(d);
    PackagesSay(host, cfg, cgroups, engine);
    StackServiceSays(host, cfg, cgroups, engine, service);
    ComposeSays(host, cfg);
    var packages := When(cgroups, DockerCgroups, []) + When(engine, DockerEngine, []);
    var up := When(service, DockerService, If(cgroups, DockerCgroups) + If(engine, DockerEngine));
    var compose := When(ComposePlanned(host, cfg), DockerCompose, ComposeDependencies(host));
    SaysBoth(host, cfg, packages, iset{DockerCgroups, DockerEngine}, up, iset{DockerService});
    var ids := iset{DockerCgroups, DockerEngine} + iset{DockerService};
    SaysBoth(host, cfg, packages + up, ids, compose, iset{DockerCompose});
    assert DockerPlan(host, cfg) == packages + up + compose;
    NoStopDue(host, cfg);
    SaysNoMore(host, cfg, DockerPlan(host, cfg), ids + iset{DockerCompose}, DOCKER_IDS);
  }

  lemma NoStopDue(host: Host, cfg: Config)
    requires DockerStop(host.family, host.docker).None?
    ensures !Due(host, cfg, DockerConflict) && !Due(host, cfg, DockerRepository)
    ensures Unhindered(host.family, host.docker)
  {
  }

  lemma PackagesSay(host: Host, cfg: Config, cgroups: bool, engine: bool)
    requires DockerWanted(cfg) && DockerStop(host.family, host.docker).None?
    requires cgroups == (host.family.Alpine? && host.docker.cgroupsServicePending)
    requires engine == NeedEngine(host.family, host.docker)
    ensures SaysOf(host, cfg, When(cgroups, DockerCgroups, []) + When(engine, DockerEngine, []),
                   iset{DockerCgroups, DockerEngine})
    ensures (cgroups <==> Due(host, cfg, DockerCgroups)) && (engine <==> Due(host, cfg, DockerEngine))
  {
    NoStopDue(host, cfg);
    OneSays(host, cfg, cgroups, DockerCgroups, []);
    AddSays(host, cfg, When(cgroups, DockerCgroups, []), iset{DockerCgroups}, engine, DockerEngine, []);
    assert iset{DockerCgroups} + iset{DockerEngine} == iset{DockerCgroups, DockerEngine};
  }

  lemma StackServiceSays(host: Host, cfg: Config, cgroups: bool, engine: bool, service: bool)
    requires DockerWanted(cfg) && DockerStop(host.family, host.docker).None?
    requires (cgroups <==> Due(host, cfg, DockerCgroups)) && (engine <==> Due(host, cfg, DockerEngine))
    requires service == !DockerReady(host.docker)
    ensures SaysOf(host, cfg, When(service, DockerService, If(cgroups, DockerCgroups) + If(engine, DockerEngine)),
                   iset{DockerService})
    ensures service <==> Due(host, cfg, DockerService)
  {
    NoStopDue(host, cfg);
    OneSays(host, cfg, service, DockerService, If(cgroups, DockerCgroups) + If(engine, DockerEngine));
  }

  lemma ComposeSays(host: Host, cfg: Config)
    requires DockerWanted(cfg) && DockerStop(host.family, host.docker).None?
    ensures SaysOf(host, cfg, When(ComposePlanned(host, cfg), DockerCompose, ComposeDependencies(host)),
                   iset{DockerCompose})
  {
    NoStopDue(host, cfg);
    PackagesSay(host, cfg, host.family.Alpine? && host.docker.cgroupsServicePending,
                NeedEngine(host.family, host.docker));
    OneSays(host, cfg, ComposePlanned(host, cfg), DockerCompose, ComposeDependencies(host));
  }

  lemma PairSays(host: Host, cfg: Config, package: bool, service: bool, needed: bool)
    requires (package <==> Due(host, cfg, TailscalePackage)) && (service <==> Due(host, cfg, TailscaleService))
    requires service ==> (needed <==> TailscaleWaits(host, cfg, TailscalePackage))
    requires !Due(host, cfg, TailscaleRepository)
    ensures Says(host, cfg, TailscalePair(package, service, needed), 5)
  {
    var waits := If(needed, TailscalePackage);
    OneSays(host, cfg, package, TailscalePackage, []);
    AddSays(host, cfg, When(package, TailscalePackage, []), iset{TailscalePackage}, service, TailscaleService, waits);
    SaysNoMore(host, cfg, TailscalePair(package, service, needed), iset{TailscalePackage} + iset{TailscaleService},
               iset id | Module(id) == 5);
  }

  lemma TailscaleSays(host: Host, cfg: Config)
    ensures Says(host, cfg, TailscalePlan(host, cfg), 5)
  {
    var ids := iset id | Module(id) == 5;
    if !cfg.tailscale {
      NothingSays(host, cfg, ids);
    } else if Foreign(host) {
      var id := if RpmFamily(host.family) then TailscaleRepository else TailscalePackage;
      OneSays(host, cfg, true, id, []);
      SaysNoMore(host, cfg, When(true, id, []), iset{id}, ids);
    } else {
      TailscalePairSays(host, cfg);
    }
  }

  lemma TailscalePairSays(host: Host, cfg: Config)
    requires cfg.tailscale && !Foreign(host)
    ensures Says(host, cfg, TailscalePlan(host, cfg), 5)
  {
    var t, rpm := host.tailscale, RpmFamily(host.family);
    match host.family
    case Devuan =>
      PairSays(host, cfg, !t.installed || !t.repositoryManaged, !t.ready, !t.installed || !t.repositoryManaged);
    case Artix =>
      PairSays(host, cfg, !t.installed || !t.serviceDefinition, !t.ready, !t.installed || !t.serviceDefinition);
    case Alpine =>
      PairSays(host, cfg, !t.installed || !t.repositoryManaged, !t.ready, !t.installed || !t.repositoryManaged);
    case Void => PairSays(host, cfg, !t.installed, !t.ready, !t.installed);
    case _ =>
      PairSays(host, cfg, !t.installed || (rpm && !t.repositoryManaged), !t.installed || !t.ready, !t.installed);
  }

  // ---- storage, resource by resource

  ghost function ResourceIds(name: string): iset<ChangeId> {
    iset step: MountStep :: StorageStep(name, step)
  }

  ghost function StepsOf(names: set<string>): iset<ChangeId> {
    iset name, step | name in names :: StorageStep(name, step)
  }

  lemma DueOfResource(host: Host, cfg: Config, i: nat, step: MountStep)
    requires ValidResources(cfg.resources) && i < |cfg.resources|
    ensures var r := cfg.resources[i];
            StorageDue(host, cfg, r.name, step) <==>
              host.assess(r.name) != Ready && (step == Blocked <==> !Preparable(host, r))
  {
    assert cfg.resources[i] in cfg.resources;
  }

  lemma ResourceSays(host: Host, cfg: Config, i: nat)
    requires ValidResources(cfg.resources) && i < |cfg.resources|
    ensures SaysOf(host, cfg, ResourcePlan(host, cfg.resources[i]), ResourceIds(cfg.resources[i].name))
  {
    var r := cfg.resources[i];
    forall step
      ensures StorageDue(host, cfg, r.name, step) <==>
              host.assess(r.name) != Ready && (step == Blocked <==> !Preparable(host, r))
    {
      DueOfResource(host, cfg, i, step);
    }
    if host.assess(r.name) == Ready {
      NothingSays(host, cfg, ResourceIds(r.name));
    } else if !Preparable(host, r) {
      OneSays(host, cfg, true, StorageStep(r.name, Blocked), []);
      SaysNoMore(host, cfg, ResourcePlan(host, r), iset{StorageStep(r.name, Blocked)}, ResourceIds(r.name));
    } else {
      ChainSays(host, cfg, r);
    }
  }

  lemma NotBlocked(host: Host, cfg: Config, name: string)
    requires forall step :: StorageDue(host, cfg, name, step) <==> step != Blocked
    ensures forall step :: Due(host, cfg, StorageStep(name, step)) <==> step != Blocked
    ensures forall d :: WaitsFor(host, cfg, StorageStep(name, MountConfig), d) <==> d == StorageStep(name, Mountpoint)
    ensures forall d :: WaitsFor(host, cfg, StorageStep(name, Mount), d) <==> d == StorageStep(name, MountConfig)
    ensures var chain := iset{StorageStep(name, Mountpoint)} + iset{StorageStep(name, MountConfig)}
                         + iset{StorageStep(name, Mount)};
            forall id :: Due(host, cfg, id) ==> (id in chain <==> id in ResourceIds(name))
  {
  }

  lemma ChainSays(host: Host, cfg: Config, r: StorageResource)
    requires host.assess(r.name) != Ready && Preparable(host, r)
    requires forall step :: StorageDue(host, cfg, r.name, step) <==> step != Blocked
    ensures SaysOf(host, cfg, ResourcePlan(host, r), ResourceIds(r.name))
  {
    var first, second, third :=
      StorageStep(r.name, Mountpoint), StorageStep(r.name, MountConfig), StorageStep(r.name, Mount);
    NotBlocked(host, cfg, r.name);
    var one, two := When(true, first, []), When(true, first, []) + When(true, second, [first]);
    OneSays(host, cfg, true, first, []);
    AddSays(host, cfg, one, iset{first}, true, second, [first]);
    AddSays(host, cfg, two, iset{first} + iset{second}, true, third, [second]);
    assert ResourcePlan(host, r) == two + When(true, third, [second]);
    SaysNoMore(host, cfg, ResourcePlan(host, r), iset{first} + iset{second} + iset{third}, ResourceIds(r.name));
  }

  lemma {:induction false} StorageSays(host: Host, cfg: Config, n: nat)
    requires ValidResources(cfg.resources) && n <= |cfg.resources|
    ensures SaysOf(host, cfg, StoragePlan(host, cfg.resources[..n]), StepsOf(ResourceNames(cfg.resources[..n])))
  {
    var before := cfg.resources[..n];
    if n == 0 {
      NothingSays(host, cfg, StepsOf(ResourceNames(before)));
    } else {
      var earlier, r := cfg.resources[..n - 1], cfg.resources[n - 1];
      assert before[..n - 1] == earlier;
      StorageSays(host, cfg, n - 1);
      ResourceSays(host, cfg, n - 1);
      SaysBoth(host, cfg, StoragePlan(host, earlier), StepsOf(ResourceNames(earlier)),
               ResourcePlan(host, r), ResourceIds(r.name));
      LastResource(before);
      assert StepsOf(ResourceNames(before)) == StepsOf(ResourceNames(earlier)) + ResourceIds(r.name);
    }
  }

  lemma AllStorageSays(host: Host, cfg: Config)
    requires ValidResources(cfg.resources)
    ensures Says(host, cfg, StoragePlan(host, cfg.resources), 4)
  {
    StorageSays(host, cfg, |cfg.resources|);
    assert cfg.resources[..|cfg.resources|] == cfg.resources;
    var ids := StepsOf(ResourceNames(cfg.resources));
    forall id | Due(host, cfg, id) ensures id in ids <==> Module(id) == 4 { }
    SaysNoMore(host, cfg, StoragePlan(host, cfg.resources), ids, iset id | Module(id) == 4);
  }

  // ---- services, one by one

  lemma {:induction false} FindResourceFinds(resources: seq<StorageResource>, name: string)
    ensures FindResource(resources, name).None? ==> forall r :: r in resources ==> r.name != name
    ensures FindResource(resources, name).Some? ==>
              FindResource(resources, name).value in resources && FindResource(resources, name).value.name == name
  {
    if resources != [] && resources[0].name != name {
      FindResourceFinds(resources[1..], name);
    }
  }

  lemma UsableOrNot(host: Host, cfg: Config, name: string)
    requires ValidResources(cfg.resources)
    ensures match FindResource(cfg.resources, name)
            case None => !Usable(host, cfg, name) && !StorageDue(host, cfg, name, Mount)
            case Some(r) =>
              && r.name == name && (Usable(host, cfg, name) <==> host.assess(name) == Ready || Mountable(host, r))
              && (StorageDue(host, cfg, name, Mount) <==> Mountable(host, r))
  {
    FindResourceFinds(cfg.resources, name);
    if FindResource(cfg.resources, name).Some? {
      var r := FindResource(cfg.resources, name).value;
      assert forall other :: other in cfg.resources && other.name == name ==> other == r;
    }
  }

  /** The data resource at the front decides for its own storage, and lets the rest decide when that is usable. */
  lemma NeedsMountSplit(host: Host, cfg: Config, data: seq<DataResource>, name: string)
    requires data != []
    ensures NeedsMount(host, cfg, data, name) <==>
            || (name != "" && StorageDue(host, cfg, name, Mount) && data[0].isPath && data[0].storage == name)
            || ((data[0].isPath && data[0].storage != "" ==> Usable(host, cfg, data[0].storage))
                && NeedsMount(host, cfg, data[1..], name))
  {
    var rest := data[1..];
    assert forall i :: 0 <= i < |rest| ==> rest[i] == data[i + 1];
    if NeedsMount(host, cfg, data, name) {
      var i :| 0 <= i < |data| && data[i].isPath && data[i].storage == name
               && forall j :: 0 <= j < i && data[j].isPath && data[j].storage != "" ==>
                    Usable(host, cfg, data[j].storage);
      if i > 0 {
        assert rest[i - 1].isPath && rest[i - 1].storage == name;
      }
    }
    if NeedsMount(host, cfg, rest, name) {
      var i :| 0 <= i < |rest| && rest[i].isPath && rest[i].storage == name
               && forall j :: 0 <= j < i && rest[j].isPath && rest[j].storage != "" ==>
                    Usable(host, cfg, rest[j].storage);
      assert data[i + 1].isPath && data[i + 1].storage == name;
      assert forall j :: 1 <= j < i + 1 ==> data[j] == rest[j - 1];
    }
  }

  lemma {:induction false} MountsAreNeeded(host: Host, cfg: Config, data: seq<DataResource>, seen: set<string>,
                                           d: ChangeId)
    requires ValidResources(cfg.resources) && forall name :: name in seen ==> Usable(host, cfg, name)
    ensures d in StorageDependencies(host, cfg, data, seen) <==>
            && d.StorageStep? && d.mountStep == Mount && d.resource !in seen && NeedsMount(host, cfg, data, d.resource)
  {
    if data != [] {
      var storage := data[0].storage;
      if d.StorageStep? {
        NeedsMountSplit(host, cfg, data, d.resource);
      }
      UsableOrNot(host, cfg, storage);
      if !data[0].isPath || storage == "" || storage in seen {
        MountsAreNeeded(host, cfg, data[1..], seen, d);
      } else if Usable(host, cfg, storage) {
        MountsAreNeeded(host, cfg, data[1..], seen + {storage}, d);
      }
    }
  }

  lemma SharedAreWaitedFor(host: Host, cfg: Config, s: Deployment, shared: seq<ChangeId>, d: ChangeId)
    requires ValidResources(cfg.resources)
    requires shared == ServiceDependencies(host)
                       + (if s.state.Absent? then [] else StorageDependencies(host, cfg, s.data, {}))
    ensures d in shared <==> SharedWaits(host, cfg, s, d)
  {
    MountsAreNeeded(host, cfg, s.data, {}, d);
  }

  ghost function DeploymentIds(name: string): iset<ChangeId> {
    iset id: ChangeId | (id.ServiceChange? || id.SelinuxReview?) && id.service == name
  }

  lemma OfDeployment(host: Host, cfg: Config, i: nat, id: ChangeId)
    requires ValidConfig(cfg) && i < |cfg.services| && id in DeploymentIds(cfg.services[i].name)
    ensures var s := cfg.services[i];
            && (id.ServiceChange? ==> (Due(host, cfg, id) <==> ServiceDue(host, s, id.serviceStep)))
            && (id.SelinuxReview? ==> (Due(host, cfg, id) <==> ReviewDue(host, s, id.resource)))
            && (id.ServiceChange? ==>
                  forall d :: WaitsFor(host, cfg, id, d) <==> ServiceWaits(host, cfg, s, id.serviceStep, d))
  {
    var s := cfg.services[i];
    assert s in cfg.services && forall other :: other in cfg.services && other.name == s.name ==> other == s;
  }

  ghost function ReviewIds(service: string, data: seq<DataResource>): iset<ChangeId> {
    iset r | r in data :: SelinuxReview(service, r.name)
  }

  /** A review is due for each unshared path. */
  ghost predicate ReviewsDue(host: Host, cfg: Config, s: Deployment) {
    forall r :: r in s.data ==> (Due(host, cfg, SelinuxReview(s.name, r.name)) <==> r.isPath && !r.selinuxShared)
  }

  lemma {:induction false} ReviewsSay(host: Host, cfg: Config, s: Deployment, n: nat)
    requires ReviewsDue(host, cfg, s) && n <= |s.data|
    ensures SaysOf(host, cfg, SelinuxReviews(s.name, s.data[..n]), ReviewIds(s.name, s.data[..n]))
  {
    if n == 0 {
      NothingSays(host, cfg, ReviewIds(s.name, []));
    } else {
      var before, last := s.data[..n - 1], s.data[n - 1];
      assert s.data[..n] == before + [last] && s.data[..n][..n - 1] == before;
      ReviewsSay(host, cfg, s, n - 1);
      AddSays(host, cfg, SelinuxReviews(s.name, before), ReviewIds(s.name, before), NeedsReview(last),
              SelinuxReview(s.name, last.name), []);
      assert ReviewIds(s.name, s.data[..n]) == ReviewIds(s.name, before) + iset{SelinuxReview(s.name, last.name)};
    }
  }

  lemma ReviewsAreDue(host: Host, cfg: Config, i: nat)
    requires ValidConfig(cfg) && i < |cfg.services| && SelinuxBlocked(host, cfg.services[i])
    ensures ReviewsDue(host, cfg, cfg.services[i])
    ensures forall id :: id in DeploymentIds(cfg.services[i].name) && Due(host, cfg, id) ==>
              id in ReviewIds(cfg.services[i].name, cfg.services[i].data)
  {
    var s := cfg.services[i];
    assert AwaitsReview(host, s);
    forall id | id in DeploymentIds(s.name)
      ensures Due(host, cfg, id) <==> id.SelinuxReview? && ReviewDue(host, s, id.resource)
    {
      OfDeployment(host, cfg, i, id);
    }
    forall r | r in s.data
      ensures Due(host, cfg, SelinuxReview(s.name, r.name)) <==> r.isPath && !r.selinuxShared
    {
      assert SelinuxReview(s.name, r.name) in DeploymentIds(s.name);
      assert forall other :: other in s.data && other.name == r.name ==> other == r;
    }
  }

  lemma BlockedSays(host: Host, cfg: Config, i: nat)
    requires ValidConfig(cfg) && i < |cfg.services| && SelinuxBlocked(host, cfg.services[i])
    ensures SaysOf(host, cfg, DeploymentPlan(host, cfg, cfg.services[i]), DeploymentIds(cfg.services[i].name))
  {
    var s := cfg.services[i];
    ReviewsAreDue(host, cfg, i);
    ReviewsSay(host, cfg, s, |s.data|);
    assert s.data[..|s.data|] == s.data;
    SaysNoMore(host, cfg, SelinuxReviews(s.name, s.data), ReviewIds(s.name, s.data), DeploymentIds(s.name));
  }

  /** What is due for a service that awaits no review. */
  ghost predicate StepsDue(host: Host, cfg: Config, s: Deployment) {
    && (forall step :: Due(host, cfg, ServiceChange(s.name, step)) <==> StepDue(host.service(s.name), s.state, step))
    && forall resource :: !Due(host, cfg, SelinuxReview(s.name, resource))
  }

  /** What its changes wait for. */
  ghost predicate StepsWait(host: Host, cfg: Config, s: Deployment, shared: seq<ChangeId>) {
    forall step, d :: WaitsFor(host, cfg, ServiceChange(s.name, step), d) <==>
      || d in shared
      || (d.ServiceChange? && d.service == s.name && (step == Start || step == Stop) && Deploys(d.serviceStep)
          && StepDue(host.service(s.name), s.state, d.serviceStep))
  }

  lemma StepsOfService(host: Host, cfg: Config, i: nat)
    requires ValidConfig(cfg) && i < |cfg.services| && !SelinuxBlocked(host, cfg.services[i])
    ensures StepsDue(host, cfg, cfg.services[i])
  {
    var s := cfg.services[i];
    assert !AwaitsReview(host, s);
    forall step
      ensures Due(host, cfg, ServiceChange(s.name, step)) <==> ServiceDue(host, s, step)
    {
      OfDeployment(host, cfg, i, ServiceChange(s.name, step));
    }
    forall resource
      ensures !Due(host, cfg, SelinuxReview(s.name, resource))
    {
      OfDeployment(host, cfg, i, SelinuxReview(s.name, resource));
    }
  }

  lemma WaitsOfService(host: Host, cfg: Config, i: nat, shared: seq<ChangeId>)
    requires ValidConfig(cfg) && i < |cfg.services| && !SelinuxBlocked(host, cfg.services[i])
    requires var s := cfg.services[i];
             shared == ServiceDependencies(host)
                       + (if s.state.Absent? then [] else StorageDependencies(host, cfg, s.data, {}))
    ensures StepsWait(host, cfg, cfg.services[i], shared)
  {
    var s := cfg.services[i];
    assert !AwaitsReview(host, s);
    forall step, d
      ensures WaitsFor(host, cfg, ServiceChange(s.name, step), d) <==>
                || d in shared
                || (d.ServiceChange? && d.service == s.name && (step == Start || step == Stop)
                    && Deploys(d.serviceStep) && ServiceDue(host, s, d.serviceStep))
    {
      OfDeployment(host, cfg, i, ServiceChange(s.name, step));
      SharedAreWaitedFor(host, cfg, s, shared, d);
    }
  }

  lemma AbsentSays(host: Host, cfg: Config, s: Deployment, shared: seq<ChangeId>)
    requires s.state.Absent? && shared == ServiceDependencies(host) && !SelinuxBlocked(host, s)
    requires StepsDue(host, cfg, s) && StepsWait(host, cfg, s, shared)
    ensures SaysOf(host, cfg, DeploymentPlan(host, cfg, s), DeploymentIds(s.name))
  {
    var f, id := host.service(s.name), ServiceChange(s.name, Remove);
    OneSays(host, cfg, f.present || f.unsafe || !f.runtime.NoContainers?, id, shared);
    SaysNoMore(host, cfg, When(f.present || f.unsafe || !f.runtime.NoContainers?, id, shared), iset{id},
               DeploymentIds(s.name));
    assert shared + [] == shared;
  }

  /** A deployment, and what follows it and waits for it. */
  lemma TwoStepsSay(host: Host, cfg: Config, changed: bool, deploy: ChangeId, moved: bool, after: ChangeId,
                    shared: seq<ChangeId>, ids: iset<ChangeId>)
    requires (changed <==> Due(host, cfg, deploy)) && (moved <==> Due(host, cfg, after))
    requires changed ==> forall d :: d in shared <==> WaitsFor(host, cfg, deploy, d)
    requires moved ==> forall d :: d in shared || (changed && d == deploy) <==> WaitsFor(host, cfg, after, d)
    requires forall id :: Due(host, cfg, id) ==> (id in ids <==> id == deploy || id == after)
    ensures SaysOf(host, cfg, When(changed, deploy, shared) + When(moved, after, shared + If(changed, deploy)), ids)
  {
    OneSays(host, cfg, changed, deploy, shared);
    AddSays(host, cfg, When(changed, deploy, shared), iset{deploy}, moved, after, shared + If(changed, deploy));
    SaysNoMore(host, cfg, When(changed, deploy, shared) + When(moved, after, shared + If(changed, deploy)),
               iset{deploy} + iset{after}, ids);
  }

  predicate Moved(f: ServiceFacts, state: State) {
    if state.Running? then DeploymentChanged(f) || !f.runtime.RunningNow?
    else !f.runtime.StoppedNow? && !f.runtime.NoContainers?
  }

  lemma PresentSteps(f: ServiceFacts, state: State)
    requires !state.Absent?
    ensures forall step :: StepDue(f, state, step) <==>
              || (DeploymentChanged(f) && step == DeployStep(f))
              || (Moved(f, state) && step == if state.Running? then Start else Stop)
  {
  }

  lemma PresentPlan(host: Host, cfg: Config, s: Deployment, shared: seq<ChangeId>, deploy: ChangeId, after: ChangeId)
    requires !s.state.Absent? && !SelinuxBlocked(host, s)
    requires shared == ServiceDependencies(host) + StorageDependencies(host, cfg, s.data, {})
    requires deploy == ServiceChange(s.name, DeployStep(host.service(s.name)))
    requires after == ServiceChange(s.name, if s.state.Running? then Start else Stop)
    ensures var f := host.service(s.name);
            DeploymentPlan(host, cfg, s) ==
              When(DeploymentChanged(f), deploy, shared)
              + When(Moved(f, s.state), after, shared + If(DeploymentChanged(f), deploy))
  {
  }

  lemma PresentSays(host: Host, cfg: Config, s: Deployment, shared: seq<ChangeId>)
    requires !s.state.Absent? && !SelinuxBlocked(host, s)
    requires shared == ServiceDependencies(host) + StorageDependencies(host, cfg, s.data, {})
    requires StepsDue(host, cfg, s) && StepsWait(host, cfg, s, shared)
    ensures SaysOf(host, cfg, DeploymentPlan(host, cfg, s), DeploymentIds(s.name))
  {
    var f := host.service(s.name);
    var changed := DeploymentChanged(f);
    var deploy := ServiceChange(s.name, DeployStep(f));
    var after := ServiceChange(s.name, if s.state.Running? then Start else Stop);
    var moved := Moved(f, s.state);
    PresentSteps(f, s.state);
    forall id | id in DeploymentIds(s.name) && Due(host, cfg, id)
      ensures id == deploy || id == after
    {
      assert id == ServiceChange(s.name, id.serviceStep);
    }
    TwoStepsSay(host, cfg, changed, deploy, moved, after, shared, DeploymentIds(s.name));
    PresentPlan(host, cfg, s, shared, deploy, after);
  }

  lemma DeploymentSays(host: Host, cfg: Config, i: nat)
    requires ValidConfig(cfg) && i < |cfg.services|
    ensures SaysOf(host, cfg, DeploymentPlan(host, cfg, cfg.services[i]), DeploymentIds(cfg.services[i].name))
  {
    var s := cfg.services[i];
    if SelinuxBlocked(host, s) {
      BlockedSays(host, cfg, i);
    } else {
      var shared := ServiceDependencies(host)
                    + (if s.state.Absent? then [] else StorageDependencies(host, cfg, s.data, {}));
      StepsOfService(host, cfg, i);
      WaitsOfService(host, cfg, i, shared);
      if s.state.Absent? {
        assert shared == ServiceDependencies(host);
        AbsentSays(host, cfg, s, shared);
      } else {
        PresentSays(host, cfg, s, shared);
      }
    }
  }

  ghost function IdsOfServices(services: seq<Deployment>): iset<ChangeId> {
    iset id: ChangeId | (id.ServiceChange? || id.SelinuxReview?) && id.service in Names(services)
  }

  lemma {:induction false} ServicesSay(host: Host, cfg: Config, n: nat)
    requires ValidConfig(cfg) && n <= |cfg.services|
    ensures SaysOf(host, cfg, ServicesPlan(host, cfg, cfg.services[..n]), IdsOfServices(cfg.services[..n]))
  {
    var before := cfg.services[..n];
    if n == 0 {
      NothingSays(host, cfg, IdsOfServices(before));
    } else {
      var earlier, s := cfg.services[..n - 1], cfg.services[n - 1];
      assert before[..n - 1] == earlier;
      ServicesSay(host, cfg, n - 1);
      DeploymentSays(host, cfg, n - 1);
      SaysBoth(host, cfg, ServicesPlan(host, cfg, earlier), IdsOfServices(earlier),
               DeploymentPlan(host, cfg, s), DeploymentIds(s.name));
      LastName(before);
      assert IdsOfServices(before) == IdsOfServices(earlier) + DeploymentIds(s.name);
    }
  }

  lemma AllServicesSay(host: Host, cfg: Config)
    requires ValidConfig(cfg)
    ensures Says(host, cfg, ServicesPlan(host, cfg, cfg.services), 2)
  {
    ServicesSay(host, cfg, |cfg.services|);
    assert cfg.services[..|cfg.services|] == cfg.services;
    DueOfServices(host, cfg);
    SaysNoMore(host, cfg, ServicesPlan(host, cfg, cfg.services), IdsOfServices(cfg.services),
               iset id | Module(id) == 2);
  }

  lemma DueOfServices(host: Host, cfg: Config)
    ensures forall id :: Due(host, cfg, id) ==> (id in IdsOfServices(cfg.services) <==> Module(id) == 2)
  {
  }

  // ---- the whole plan

  lemma ModuleSays(host: Host, cfg: Config, m: nat)
    requires ValidConfig(cfg) && m < 7
    ensures Says(host, cfg, ModulePlan(host, cfg, m), m)
  {
    match m
    case 0 => BaseSays(host, cfg);
    case 1 => DockerSays(host, cfg);
    case 2 => AllServicesSay(host, cfg);
    case 4 => AllStorageSays(host, cfg);
    case 5 => TailscaleSays(host, cfg);
    case _ => SshSays(host, cfg);
  }

  lemma {:induction false} FlattenSays(host: Host, cfg: Config, ps: seq<seq<Planned>>)
    requires forall m :: 0 <= m < |ps| ==> Says(host, cfg, ps[m], m)
    ensures SaysOf(host, cfg, Flatten(ps), iset id | Module(id) < |ps|)
  {
    if ps == [] {
      NothingSays(host, cfg, iset id | Module(id) < 0);
    } else {
      var n := |ps| - 1;
      assert forall m :: 0 <= m < n ==> ps[..n][m] == ps[m];
      FlattenSays(host, cfg, ps[..n]);
      var before, last := (iset id | Module(id) < n), (iset id | Module(id) == n);
      SaysBoth(host, cfg, Flatten(ps[..n]), before, ps[n], last);
      assert (iset id | Module(id) < |ps|) == before + last;
    }
  }

  /** Exactly the due changes are collected, and each waits for exactly what it should. */
  lemma CollectedIsDue(host: Host, cfg: Config)
    requires ValidConfig(cfg)
    ensures forall id :: id in IdSet(Collected(host, cfg)) <==> Due(host, cfg, id)
    ensures forall p, d :: p in Collected(host, cfg) ==> (d in p.dependencies <==> WaitsFor(host, cfg, p.id, d))
  {
    var ps := ModulePlans(host, cfg);
    forall m | 0 <= m < 7
      ensures Says(host, cfg, ps[m], m)
    {
      ModuleSays(host, cfg, m);
    }
    FlattenSays(host, cfg, ps);
    assert forall id :: Module(id) < 7;
  }

  /** A due change waits for one that is not due. */
  ghost predicate WaitsInVain(host: Host, cfg: Config) {
    exists id, d :: Due(host, cfg, id) && WaitsFor(host, cfg, id, d) && !Due(host, cfg, d)
  }

  lemma UnmetMeansInVain(host: Host, cfg: Config)
    requires ValidConfig(cfg)
    ensures Unmet(host, cfg) <==> WaitsInVain(host, cfg)
  {
    var ps := Collected(host, cfg);
    CollectedIsDue(host, cfg);
    CollectedClosed(host, cfg);
    if id, d :| Due(host, cfg, id) && WaitsFor(host, cfg, id, d) && !Due(host, cfg, d) {
      assert id in IdSet(ps);
      var p :| p in ps && p.id == id;
      assert d in p.dependencies && d !in IdSet(ps);
    }
  }

  ghost function AllDue(host: Host, cfg: Config): iset<ChangeId> {
    iset id | Due(host, cfg, id)
  }

  ghost function AllWaits(host: Host, cfg: Config): iset<(ChangeId, ChangeId)> {
    iset id, d | WaitsFor(host, cfg, id, d) :: (id, d)
  }

  /** In print: the changes are exactly those `due`, and each lists exactly what it waits for. */
  ghost predicate PrintsExactly(changes: seq<Change>, due: iset<ChangeId>, waits: iset<(ChangeId, ChangeId)>) {
    && (forall id :: id in due ==> exists c :: c in changes && c.id == Print(id))
    && (forall c :: c in changes ==> exists id :: PrintsTo(id, c.id) && id in due)
    && forall c, id :: c in changes && PrintsTo(id, c.id) ==>
         forall d :: ValidId(d) ==> (Print(d) in c.dependencies <==> (id, d) in waits)
  }

  ghost predicate PlansTheDue(host: Host, cfg: Config, changes: seq<Change>) {
    PrintsExactly(changes, AllDue(host, cfg), AllWaits(host, cfg))
  }

  lemma CollectedInSets(host: Host, cfg: Config)
    requires ValidConfig(cfg)
    ensures forall id :: id in IdSet(Collected(host, cfg)) <==> id in AllDue(host, cfg)
    ensures forall p, d :: p in Collected(host, cfg) ==> (d in p.dependencies <==> (p.id, d) in AllWaits(host, cfg))
  {
    CollectedIsDue(host, cfg);
  }

  /** The changes are what `ps` prints to. */
  ghost predicate PrintOf(ps: seq<Planned>, details: ChangeId -> Details, changes: seq<Change>) {
    && (forall p :: p in ps ==> Orderly(p) && ToChange(p, details) in changes)
    && forall c :: c in changes ==> exists p :: p in ps && c == ToChange(p, details)
  }

  lemma PrintsOf(ps: seq<Planned>, details: ChangeId -> Details, changes: seq<Change>)
    requires multiset(changes) == multiset(ToChanges(ps, details)) && forall p :: p in ps ==> Orderly(p)
    ensures PrintOf(ps, details, changes)
  {
    var cs := ToChanges(ps, details);
    forall c ensures c in changes <==> c in cs { assert c in multiset(changes) <==> c in multiset(cs); }
    forall p | p in ps
      ensures ToChange(p, details) in changes
    {
      var i :| 0 <= i < |ps| && ps[i] == p;
      assert cs[i] in cs;
    }
    forall c | c in changes
      ensures exists p :: p in ps && c == ToChange(p, details)
    {
      var i :| 0 <= i < |cs| && cs[i] == c;
      assert ps[i] in ps;
    }
  }

  /** The change a printed ID belongs to. */
  lemma PrintedFrom(ps: seq<Planned>, details: ChangeId -> Details, changes: seq<Change>, c: Change)
    returns (p: Planned)
    requires PrintOf(ps, details, changes) && c in changes
    ensures p in ps && c == ToChange(p, details) && PrintsTo(p.id, c.id)
    ensures forall id :: PrintsTo(id, c.id) ==> id == p.id
  {
    p :| p in ps && c == ToChange(p, details);
    forall id | PrintsTo(id, c.id)
      ensures id == p.id
    {
      PrintInjective(id, p.id);
    }
  }

  lemma PrintedPlansTheDue(host: Host, cfg: Config, details: ChangeId -> Details, changes: seq<Change>)
    requires ValidConfig(cfg) && multiset(changes) == multiset(ToChanges(Collected(host, cfg), details))
    ensures PlansTheDue(host, cfg, changes)
  {
    CollectedInSets(host, cfg);
    CollectedGathered(host, cfg);
    PrintsAll(Collected(host, cfg), details, changes, AllDue(host, cfg), AllWaits(host, cfg));
  }

  lemma PrintsAll(ps: seq<Planned>, details: ChangeId -> Details, changes: seq<Change>, due: iset<ChangeId>,
                  waits: iset<(ChangeId, ChangeId)>)
    requires multiset(changes) == multiset(ToChanges(ps, details)) && forall p :: p in ps ==> Orderly(p)
    requires forall id :: id in IdSet(ps) <==> id in due
    requires forall p, d :: p in ps ==> (d in p.dependencies <==> (p.id, d) in waits)
    ensures PrintsExactly(changes, due, waits)
  {
    PrintsOf(ps, details, changes);
    PrintedAre(ps, details, changes, due);
    PrintedWait(ps, details, changes, waits);
  }

  lemma PrintedAre(ps: seq<Planned>, details: ChangeId -> Details, changes: seq<Change>, due: iset<ChangeId>)
    requires PrintOf(ps, details, changes) && forall id :: id in IdSet(ps) <==> id in due
    ensures forall id :: id in due ==> exists c :: c in changes && c.id == Print(id)
    ensures forall c :: c in changes ==> exists id :: PrintsTo(id, c.id) && id in due
  {
    forall id | id in due
      ensures exists c :: c in changes && c.id == Print(id)
    {
      var p :| p in ps && p.id == id;
      assert ToChange(p, details) in changes;
    }
    forall c | c in changes
      ensures exists id :: PrintsTo(id, c.id) && id in due
    {
      var p := PrintedFrom(ps, details, changes, c);
      assert p.id in IdSet(ps);
    }
  }

  lemma PrintedWait(ps: seq<Planned>, details: ChangeId -> Details, changes: seq<Change>,
                    waits: iset<(ChangeId, ChangeId)>)
    requires PrintOf(ps, details, changes)
    requires forall p, d :: p in ps ==> (d in p.dependencies <==> (p.id, d) in waits)
    ensures forall c, id :: c in changes && PrintsTo(id, c.id) ==>
              forall d :: ValidId(d) ==> (Print(d) in c.dependencies <==> (id, d) in waits)
  {
    forall c, id, d | c in changes && PrintsTo(id, c.id) && ValidId(d)
      ensures Print(d) in c.dependencies <==> (id, d) in waits
    {
      var p := PrintedFrom(ps, details, changes, c);
      ListsInPrint(p, details, d);
    }
  }

  lemma ListsInPrint(p: Planned, details: ChangeId -> Details, d: ChangeId)
    requires Orderly(p) && ValidId(d)
    ensures Print(d) in ToChange(p, details).dependencies <==> d in p.dependencies
  {
    var printed := PrintAll(p.dependencies);
    if Print(d) in printed {
      var i :| 0 <= i < |printed| && printed[i] == Print(d);
      assert p.dependencies[i] in p.dependencies;
      PrintInjective(p.dependencies[i], d);
    }
    if d in p.dependencies {
      var i :| 0 <= i < |p.dependencies| && p.dependencies[i] == d;
      assert printed[i] == Print(d);
    }
  }

  lemma CollectedGathered(host: Host, cfg: Config)
    requires ValidConfig(cfg)
    ensures forall p :: p in Collected(host, cfg) ==> Orderly(p)
  {
    ModulesContribute(host, cfg);
    GatherAll(ModulePlans(host, cfg), {});
  }

  /** Where the stack is planned, the engine is changed exactly when something about it is missing. */
  lemma EngineExactlyWhenMissing(host: Host, cfg: Config)
    requires DockerWanted(cfg) && Unhindered(host.family, host.docker)
    ensures DockerEngine in IdSet(DockerPlan(host, cfg)) <==> !EngineInPlace(host.family, host.docker)
  {
    DockerSays(host, cfg);
    assert Due(host, cfg, DockerEngine) <==> !EngineInPlace(host.family, host.docker);
  }

  /** The listed change waits for exactly the Docker changes listed before it. */
  ghost predicate WaitsForEarlier(ps: seq<Planned>, k: nat)
    requires k < |ps|
  {
    forall d :: d in ps[k].dependencies <==> d in IdSet(ps[..k])
  }

  /** So the service and Compose changes do, save Void's Compose change, which waits for the service alone. */
  lemma DockerWaitsForEarlier(host: Host, cfg: Config, k: nat)
    requires k < |DockerPlan(host, cfg)|
    ensures var ps := DockerPlan(host, cfg);
            && (ps[k].id == DockerService ==> WaitsForEarlier(ps, k))
            && (ps[k].id == DockerCompose && !host.family.Void? ==> WaitsForEarlier(ps, k))
            && (ps[k].id == DockerCompose && host.family.Void? ==> ps[k].dependencies == [DockerService])
  {
    var d, family := host.docker, host.family;
    var cgroups, engine, service := family.Alpine? && d.cgroupsServicePending, NeedEngine(family, d), !DockerReady(d);
    if DockerStop(family, d).None? {
      ServiceWaitsForEarlier(cgroups, engine, service, ComposePlanned(host, cfg), ComposeDependencies(host));
      ComposeIsLast(cgroups, engine, service, ComposePlanned(host, cfg), ComposeDependencies(host));
      ComposeNeeds(host, cfg);
    }
  }

  lemma ComposeNeeds(host: Host, cfg: Config)
    ensures var d, family := host.docker, host.family;
            var stack := DockerStack(family.Alpine? && d.cgroupsServicePending, NeedEngine(family, d), !DockerReady(d));
            ComposePlanned(host, cfg) && !family.Void? ==>
              forall id :: id in ComposeDependencies(host) <==> id in IdSet(stack)
  {
    var d, family := host.docker, host.family;
    StackIds(family.Alpine? && d.cgroupsServicePending, NeedEngine(family, d), !DockerReady(d));
  }

  lemma ServiceWaitsForEarlier(cgroups: bool, engine: bool, service: bool, compose: bool, needs: seq<ChangeId>)
    ensures var ps := DockerStack(cgroups, engine, service) + When(compose, DockerCompose, needs);
            forall k :: 0 <= k < |ps| && ps[k].id == DockerService ==> WaitsForEarlier(ps, k)
  {
    var ps := DockerStack(cgroups, engine, service) + When(compose, DockerCompose, needs);
    var before := When(cgroups, DockerCgroups, []) + When(engine, DockerEngine, []);
    forall k | 0 <= k < |ps| && ps[k].id == DockerService
      ensures ps[..k] == before && ps[k].dependencies == If(cgroups, DockerCgroups) + If(engine, DockerEngine)
    {
    }
    StackIds(cgroups, engine, service);
  }

  lemma ComposeIsLast(cgroups: bool, engine: bool, service: bool, compose: bool, needs: seq<ChangeId>)
    ensures var ps := DockerStack(cgroups, engine, service) + When(compose, DockerCompose, needs);
            forall k :: 0 <= k < |ps| && ps[k].id == DockerCompose ==>
              compose && ps[k].dependencies == needs && ps[..k] == DockerStack(cgroups, engine, service)
  {
  }

  lemma StackIds(cgroups: bool, engine: bool, service: bool)
    ensures var before := When(cgroups, DockerCgroups, []) + When(engine, DockerEngine, []);
            forall d :: d in IdSet(before) <==> d in If(cgroups, DockerCgroups) + If(engine, DockerEngine)
    ensures forall d :: d in IdSet(DockerStack(cgroups, engine, service)) <==>
              (cgroups && d == DockerCgroups) || (engine && d == DockerEngine) || (service && d == DockerService)
  {
    StackContributes(cgroups, engine, service, {DockerCgroups, DockerEngine});
    StackContributes(cgroups, engine, false, {DockerCgroups, DockerEngine});
    assert DockerStack(cgroups, engine, false) == When(cgroups, DockerCgroups, []) + When(engine, DockerEngine, []);
  }
}
