/**
 * `internal/planner/planner.go` and the planners of `internal/modules`: which changes the modules emit and what these
 * depend on. Scripts, wording and blocked flags are left to a parameter; they play no part in ordering.
 */
module Planner {
  import opened Text
  import opened ChangeIds

  datatype Family = Apt | Devuan | Artix | Alpine | Void | Arch | OpenSuse | EnterpriseLinux | Fedora

  /** `sourceReviewed` says the package source has a reviewed mapping (Void repository, Docker CE policy). */
  datatype DockerFacts = DockerFacts(
    installed: bool, enabled: bool, active: bool, responsive: bool, composeAvailable: bool,
    packageSetComplete: bool, repositoryManaged: bool, repositoryUnmanaged: bool, sourceReviewed: bool,
    conflicting: bool, held: bool, cgroupsAvailable: bool, cgroupsServicePending: bool)

  datatype TailscaleFacts = TailscaleFacts(
    installed: bool, ready: bool, repositoryManaged: bool, repositoryUnmanaged: bool, serviceDefinition: bool,
    sourceReviewed: bool)

  datatype StorageState = Ready | Missing | RootSpill | NotUsable

  datatype Runtime = RunningNow | StoppedNow | NoContainers | OtherRuntime

  datatype ServiceFacts = ServiceFacts(
    present: bool, unsafe: bool, digestMatches: bool, secretDiffers: bool, placementDiffers: bool, runtime: Runtime)

  datatype Host = Host(
    family: Family, dataRootExists: bool, dataRootCorrect: bool, docker: DockerFacts, tailscale: TailscaleFacts,
    sshNeedsHardening: bool, updatesNeeded: bool, selinuxEnforcing: bool,
    assess: string -> StorageState, service: string -> ServiceFacts)

  datatype StorageResource = StorageResource(name: string, managed: bool)

  datatype DataResource = DataResource(name: string, isPath: bool, storage: string, selinuxShared: bool)

  datatype State = Running | Stopped | Absent

  datatype Deployment = Deployment(name: string, state: State, data: seq<DataResource>)

  datatype Config = Config(
    docker: bool, tailscale: bool, sshHardening: bool, automaticUpdates: bool,
    resources: seq<StorageResource>, services: seq<Deployment>)

  datatype Planned = Planned(id: ChangeId, dependencies: seq<ChangeId>)

  /** The part of `config.Validate` that concerns names. */
  predicate ValidConfig(cfg: Config) {
    && (forall i :: 0 <= i < |cfg.resources| ==> ValidName(cfg.resources[i].name))
    && (forall i, j :: 0 <= i < j < |cfg.resources| ==> cfg.resources[i].name != cfg.resources[j].name)
    && (forall i :: 0 <= i < |cfg.services| ==> ValidName(cfg.services[i].name) && ValidData(cfg.services[i].data))
    && forall i, j :: 0 <= i < j < |cfg.services| ==> cfg.services[i].name != cfg.services[j].name
  }

  predicate ValidData(data: seq<DataResource>) {
    && (forall i :: 0 <= i < |data| ==> ValidName(data[i].name))
    && forall i, j :: 0 <= i < j < |data| ==> data[i].name != data[j].name
  }

  // ---- the modules, in the order their names sort

  function When(condition: bool, id: ChangeId, dependencies: seq<ChangeId>): seq<Planned> {
    if condition then [Planned(id, dependencies)] else []
  }

  function If(condition: bool, id: ChangeId): seq<ChangeId> {
    if condition then [id] else []
  }

  function BasePlan(host: Host): seq<Planned> {
    When(!host.dataRootExists, DataRoot, []) +
      When(host.dataRootExists && !host.dataRootCorrect, DataRootPermissions, [])
  }

  predicate DockerReady(d: DockerFacts) {
    d.enabled && d.active && d.responsive
  }

  predicate NeedEngine(family: Family, d: DockerFacts) {
    match family
    case Apt => !d.installed
    case Alpine => !d.installed || !d.packageSetComplete || !d.repositoryManaged
    case EnterpriseLinux => !d.installed || !d.packageSetComplete || !d.repositoryManaged
    case _ => !d.installed || !d.packageSetComplete
  }

  /** The change a planner stops at instead of planning the Docker stack, if any. */
  function DockerStop(family: Family, d: DockerFacts): Option<seq<Planned>> {
    match family
    case Artix => if !d.cgroupsAvailable then Some([Planned(DockerCgroups, [])]) else None
    case Alpine => if !d.cgroupsAvailable then Some([Planned(DockerCgroups, [])]) else None
    case Void =>
      if !d.sourceReviewed || d.repositoryUnmanaged || d.held then Some([Planned(DockerEngine, [])])
      else if !d.cgroupsAvailable then Some([Planned(DockerCgroups, [])]) else None
    case OpenSuse => if d.conflicting then Some([Planned(DockerConflict, [])]) else None
    case Fedora => if d.conflicting then Some([Planned(DockerConflict, [])]) else None
    case EnterpriseLinux =>
      if d.conflicting then Some([Planned(DockerConflict, [])])
      else if d.repositoryUnmanaged then Some([Planned(DockerRepository, [])])
      else if !d.sourceReviewed then Some([]) else None
    case _ => None
  }

  function DockerPlan(host: Host, cfg: Config): seq<Planned> {
    var d, family := host.docker, host.family;
    var cgroups := family.Alpine? && d.cgroupsServicePending;
    var engine := NeedEngine(family, d);
    if !cfg.docker && cfg.services == [] then []
    else
      match DockerStop(family, d)
      case Some(changes) => changes
      case None =>
        DockerStack(cgroups, engine, !DockerReady(d)) +
          When(ComposePlanned(host, cfg), DockerCompose, ComposeDependencies(host))
  }

  function DockerStack(cgroups: bool, engine: bool, service: bool): seq<Planned> {
    When(cgroups, DockerCgroups, [])
    + When(engine, DockerEngine, [])
    + When(service, DockerService, If(cgroups, DockerCgroups) + If(engine, DockerEngine))
  }

  /** The Alpine, Devuan and Artix planners never plan Compose; Void plans it only once the engine is there. */
  predicate ComposePlanned(host: Host, cfg: Config) {
    && cfg.services != [] && !host.docker.composeAvailable
    && match host.family
       case Alpine => false
       case Devuan => false
       case Artix => false
       case Void => !NeedEngine(Void, host.docker)
       case _ => true
  }

  function ComposeDependencies(host: Host): seq<ChangeId> {
    if host.family.Void? then [DockerService]
    else If(NeedEngine(host.family, host.docker), DockerEngine) + If(!DockerReady(host.docker), DockerService)
  }

  function ServiceDependencies(host: Host): seq<ChangeId> {
    var d := host.docker;
    (if !host.dataRootExists then [DataRoot] else If(!host.dataRootCorrect, DataRootPermissions))
    + If(!d.installed || !DockerReady(d), DockerService)
    + If(!d.composeAvailable, DockerCompose)
  }

  function FindResource(resources: seq<StorageResource>, name: string): Option<StorageResource> {
    if resources == [] then None
    else if resources[0].name == name then Some(resources[0])
    else FindResource(resources[1..], name)
  }

  predicate Mountable(host: Host, resource: StorageResource) {
    resource.managed && (host.assess(resource.name).Missing? || host.assess(resource.name).RootSpill?)
  }

  /** `serviceStoragePolicy`, as the dependencies it returns; it stops at the first resource that blocks. */
  function StorageDependencies(host: Host, cfg: Config, data: seq<DataResource>, seen: set<string>): seq<ChangeId> {
    if data == [] then []
    else
      var first, rest := data[0], data[1..];
      if !first.isPath || first.storage == "" || first.storage in seen then StorageDependencies(host, cfg, rest, seen)
      else
        match FindResource(cfg.resources, first.storage)
        case None => []
        case Some(resource) =>
          if host.assess(resource.name).Ready? then StorageDependencies(host, cfg, rest, seen + {first.storage})
          else if Mountable(host, resource) then
            [StorageStep(resource.name, Mount)] + StorageDependencies(host, cfg, rest, seen + {first.storage})
          else []
  }

  predicate NeedsReview(resource: DataResource) {
    resource.isPath && !resource.selinuxShared
  }

  predicate SelinuxBlocked(host: Host, deployment: Deployment) {
    host.selinuxEnforcing && !deployment.state.Absent? && exists r | r in deployment.data :: NeedsReview(r)
  }

  function SelinuxReviews(service: string, data: seq<DataResource>): seq<Planned> {
    if data == [] then []
    else
      SelinuxReviews(service, data[..|data| - 1])
      + When(NeedsReview(data[|data| - 1]), SelinuxReview(service, data[|data| - 1].name), [])
  }

  predicate DeploymentChanged(facts: ServiceFacts) {
    !facts.present || facts.unsafe || !facts.digestMatches || facts.secretDiffers || facts.placementDiffers
  }

  function DeployStep(facts: ServiceFacts): ServiceStep {
    if facts.unsafe then Deploy
    else if facts.present && !facts.digestMatches then Update
    else if facts.secretDiffers then Update
    else if facts.placementDiffers then Placement
    else Deploy
  }

  function DeploymentPlan(host: Host, cfg: Config, deployment: Deployment): seq<Planned> {
    var name, facts := deployment.name, host.service(deployment.name);
    if SelinuxBlocked(host, deployment) then SelinuxReviews(name, deployment.data)
    else
      var dependencies := ServiceDependencies(host)
                          + (if deployment.state.Absent? then []
                             else StorageDependencies(host, cfg, deployment.data, {}));
      if deployment.state.Absent? then
        When(facts.present || facts.unsafe || !facts.runtime.NoContainers?, ServiceChange(name, Remove), dependencies)
      else
        var changed := DeploymentChanged(facts);
        var deploy := ServiceChange(name, DeployStep(facts));
        When(changed, deploy, dependencies)
        + if deployment.state.Running? then
            When(changed || !facts.runtime.RunningNow?, ServiceChange(name, Start), dependencies + If(changed, deploy))
          else
            When(!facts.runtime.StoppedNow? && !facts.runtime.NoContainers?, ServiceChange(name, Stop),
                 dependencies + If(changed, deploy))
  }

  function ServicesPlan(host: Host, cfg: Config, services: seq<Deployment>): seq<Planned> {
    if services == [] then []
    else ServicesPlan(host, cfg, services[..|services| - 1]) + DeploymentPlan(host, cfg, services[|services| - 1])
  }

  function ResourcePlan(host: Host, resource: StorageResource): seq<Planned> {
    var name := resource.name;
    if host.assess(name).Ready? then []
    else if !Mountable(host, resource) then [Planned(StorageStep(name, Blocked), [])]
    else [Planned(StorageStep(name, Mountpoint), []),
          Planned(StorageStep(name, MountConfig), [StorageStep(name, Mountpoint)]),
          Planned(StorageStep(name, Mount), [StorageStep(name, MountConfig)])]
  }

  function StoragePlan(host: Host, resources: seq<StorageResource>): seq<Planned> {
    if resources == [] then []
    else StoragePlan(host, resources[..|resources| - 1]) + ResourcePlan(host, resources[|resources| - 1])
  }

  function TailscalePlan(host: Host, cfg: Config): seq<Planned> {
    var t := host.tailscale;
    var rpm := host.family.EnterpriseLinux? || host.family.OpenSuse? || host.family.Fedora?;
    if !cfg.tailscale then []
    else
      match host.family
      case Devuan =>
        if t.repositoryUnmanaged then [Planned(TailscalePackage, [])]
        else TailscalePair(!t.installed || !t.repositoryManaged, !t.ready, !t.installed || !t.repositoryManaged)
      case Artix => TailscalePair(!t.installed || !t.serviceDefinition, !t.ready, !t.installed || !t.serviceDefinition)
      case Alpine => TailscalePair(!t.installed || !t.repositoryManaged, !t.ready, !t.installed || !t.repositoryManaged)
      case Void =>
        if !t.sourceReviewed || t.repositoryUnmanaged then [Planned(TailscalePackage, [])]
        else TailscalePair(!t.installed, !t.ready, !t.installed)
      case _ =>
        if rpm && t.repositoryUnmanaged then [Planned(TailscaleRepository, [])]
        else TailscalePair(!t.installed || (rpm && !t.repositoryManaged), !t.installed || !t.ready, !t.installed)
  }

  /** The package change and the service change, which waits for the package when that is needed first. */
  function TailscalePair(package: bool, service: bool, needed: bool): seq<Planned> {
    When(package, TailscalePackage, []) + When(service, TailscaleService, If(needed, TailscalePackage))
  }

  /** The modules in the order of their names: base, docker, services, ssh, storage, tailscale, updates. */
  function ModulePlan(host: Host, cfg: Config, m: nat): seq<Planned> {
    match m
    case 0 => BasePlan(host)
    case 1 => DockerPlan(host, cfg)
    case 2 => ServicesPlan(host, cfg, cfg.services)
    case 3 => When(cfg.sshHardening && host.sshNeedsHardening, SshHardening, [])
    case 4 => StoragePlan(host, cfg.resources)
    case 5 => TailscalePlan(host, cfg)
    case 6 => When(cfg.automaticUpdates && host.updatesNeeded, UnattendedUpdates, [])
    case _ => []
  }

  function ModulePlans(host: Host, cfg: Config): seq<seq<Planned>> {
    seq(7, m requires 0 <= m => ModulePlan(host, cfg, m))
  }

  function Flatten(plans: seq<seq<Planned>>): seq<Planned> {
    if plans == [] then [] else Flatten(plans[..|plans| - 1]) + plans[|plans| - 1]
  }

  /** Everything `Build` collects. */
  function Collected(host: Host, cfg: Config): seq<Planned> {
    Flatten(ModulePlans(host, cfg))
  }
}
