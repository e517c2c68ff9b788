/** `Build` and the planners with loops: changes are accumulated module by module, then finalized in place. */
module PlanBuild {
  import opened Text
  import opened PlanGraph
  import opened ChangeIds
  import opened Planner
  import opened PlanClosure
  import opened PlanFinalizes
  import opened PlanReasons
  import opened PlanFinalize
  import PlanSort

  method PlanStorage(host: Host, cfg: Config) returns (changes: seq<Planned>)
    ensures changes == StoragePlan(host, cfg.resources)
  {
    changes := [];
    for i := 0 to |cfg.resources|
      invariant changes == StoragePlan(host, cfg.resources[..i])
    {
      assert cfg.resources[..i + 1][..i] == cfg.resources[..i];
      var resource := cfg.resources[i];
      var state := host.assess(resource.name);
      if state.Ready? {
        continue;
      }
      if !resource.managed || !(state.Missing? || state.RootSpill?) {
        changes := changes + [Planned(StorageStep(resource.name, Blocked), [])];
        continue;
      }
      var mountpoint, configure := StorageStep(resource.name, Mountpoint), StorageStep(resource.name, MountConfig);
      changes := changes + [Planned(mountpoint, []), Planned(configure, [mountpoint]),
                            Planned(StorageStep(resource.name, Mount), [configure])];
    }
    assert cfg.resources[..|cfg.resources|] == cfg.resources;
  }

  method PlanServices(host: Host, cfg: Config) returns (changes: seq<Planned>)
    ensures changes == ServicesPlan(host, cfg, cfg.services)
  {
    changes := [];
    for i := 0 to |cfg.services|
      invariant changes == ServicesPlan(host, cfg, cfg.services[..i])
    {
      assert cfg.services[..i + 1][..i] == cfg.services[..i];
      changes := changes + DeploymentPlan(host, cfg, cfg.services[i]);
    }
    assert cfg.services[..|cfg.services|] == cfg.services;
  }

  /** What one module adds: IDs of its own, each once, every dependency ranked below the change that names it. */
  method CollectModule(host: Host, cfg: Config, m: nat) returns (changes: seq<Planned>)
    requires m < 7
    ensures changes == ModulePlan(host, cfg, m)
    ensures ValidConfig(cfg) ==> Contribution(changes, m)
  {
    if ValidConfig(cfg) {
      ModuleContributes(host, cfg, m);
    }
    if m == 2 {
      changes := PlanServices(host, cfg);
    } else if m == 4 {
      changes := PlanStorage(host, cfg);
    } else {
      changes := ModulePlan(host, cfg, m);
    }
  }

  /** What the host shows before any module is asked; `libcReviewed` also holds where no libc is prescribed. */
  datatype Gates = Gates(
    systemSupported: bool, architectureReviewed: bool, libcReviewed: bool, initAvailable: bool, mutationBlocked: bool,
    packageTools: bool, toolsRequired: bool, flock: bool, lsblk: bool, findmnt: bool,
    architectureKnown: bool, ufwActive: bool, otherFirewall: bool)

  datatype Refusal =
    | UnsupportedSystem
    | UnreviewedArchitecture
    | UnreviewedLibc
    | NoInitSystem
    | UnsafeMutation
    | NoPackageTools
    | MissingTools(missing: seq<string>)

  /** The gates in the order they are tried, each with the condition to pass it. */
  predicate Passes(g: Gates, gate: nat) {
    match gate
    case 0 => g.systemSupported
    case 1 => g.architectureReviewed
    case 2 => g.libcReviewed
    case 3 => g.initAvailable
    case 4 => !g.mutationBlocked
    case 5 => g.packageTools
    case _ => !g.toolsRequired || (g.flock && g.lsblk && g.findmnt)
  }

  function GateOf(refusal: Refusal): nat {
    match refusal
    case UnsupportedSystem => 0
    case UnreviewedArchitecture => 1
    case UnreviewedLibc => 2
    case NoInitSystem => 3
    case UnsafeMutation => 4
    case NoPackageTools => 5
    case MissingTools(_) => 6
  }

  ghost predicate Admitted(g: Gates) {
    forall gate :: 0 <= gate < 7 ==> Passes(g, gate)
  }

  /** The first gate that refuses the host, if any does; missing tools are named, all of them and no other. */
  method Admit(g: Gates) returns (refusal: Option<Refusal>)
    ensures refusal.None? <==> Admitted(g)
    ensures refusal.Some? ==>
              var gate := GateOf(refusal.value);
              !Passes(g, gate) && forall earlier :: 0 <= earlier < gate ==> Passes(g, earlier)
    ensures refusal.Some? && refusal.value.MissingTools? ==>
              forall tool :: tool in refusal.value.missing <==>
                (tool == "flock" && !g.flock) || (tool == "lsblk" && !g.lsblk) || (tool == "findmnt" && !g.findmnt)
  {
    assert Admitted(g) ==> Passes(g, 0) && Passes(g, 1) && Passes(g, 2) && Passes(g, 3) && Passes(g, 4) && Passes(g, 5)
                           && Passes(g, 6);
    if !g.systemSupported {
      return Some(UnsupportedSystem);
    }
    if !g.architectureReviewed {
      return Some(UnreviewedArchitecture);
    }
    if !g.libcReviewed {
      return Some(UnreviewedLibc);
    }
    if !g.initAvailable {
      return Some(NoInitSystem);
    }
    if g.mutationBlocked {
      return Some(UnsafeMutation);
    }
    if !g.packageTools {
      return Some(NoPackageTools);
    }
    if g.toolsRequired && (!g.flock || !g.lsblk || !g.findmnt) {
      var missing: seq<string> := [];
      if !g.flock {
        missing := missing + ["flock"];
      }
      if !g.lsblk {
        missing := missing + ["lsblk"];
      }
      if !g.findmnt {
        missing := missing + ["findmnt"];
      }
      return Some(MissingTools(missing));
    }
    return None;
  }

  /** What a module returns besides its changes; an error in place of both. */
  datatype Answer = ModuleFails | ModuleWarns(warnings: seq<Warning>)

  function HostWarnings(g: Gates): seq<Warning> {
    (if g.architectureKnown then [] else [Warning("host.architecture", "host", "unknown target architecture", "")])
    + if g.ufwActive || g.otherFirewall then [Warning("firewall.external", "firewall", "an existing firewall", "")]
      else []
  }

  method WarnOfHost(g: Gates) returns (warnings: seq<Warning>)
    ensures warnings == HostWarnings(g)
  {
    warnings := [];
    if !g.architectureKnown {
      warnings := warnings + [Warning("host.architecture", "host", "unknown target architecture", "")];
    }
    if g.ufwActive || g.otherFirewall {
      warnings := warnings + [Warning("firewall.external", "firewall", "an existing firewall", "")];
    }
  }

  /** The warnings of the first `n` modules, in module order, after the host's. */
  function WarningsOf(g: Gates, answers: nat -> Answer, n: nat): seq<Warning> {
    if n == 0 then HostWarnings(g)
    else WarningsOf(g, answers, n - 1) + if answers(n - 1).ModuleWarns? then answers(n - 1).warnings else []
  }

  datatype BuildOutcome =
    | Built
    | ConfigInvalid
    | UnsupportedHost(refusal: Refusal)
    | ModuleFailed(m: nat)
    | FinalizeFailed(error: PlanSort.SortError)

  ghost predicate NoneFails(answers: nat -> Answer, n: nat) {
    forall m :: 0 <= m < n ==> !answers(m).ModuleFails?
  }

  /** A name that can be part of an ID: there is one, and no dot splits it. */
  method CheckName(name: string) returns (ok: bool)
    ensures ok <==> ValidName(name)
  {
    for i := 0 to |name|
      invariant '.' !in name[..i]
    {
      if name[i] == '.' {
        return false;
      }
      TakeOneMore(name, i);
    }
    assert name[..|name|] == name;
    return name != "";
  }

  /** Every name valid, and none twice. */
  method CheckNames(names: seq<string>) returns (ok: bool)
    ensures ok <==> (forall i :: 0 <= i < |names| ==> ValidName(names[i]))
                    && forall i, j :: 0 <= i < j < |names| ==> names[i] != names[j]
  {
    var seen: set<string> := {};
    for i := 0 to |names|
      invariant forall k :: 0 <= k < i ==> ValidName(names[k]) && names[k] in seen
      invariant forall name :: name in seen ==> exists k :: 0 <= k < i && names[k] == name
      invariant forall a, b :: 0 <= a < b < i ==> names[a] != names[b]
    {
      var valid := CheckName(names[i]);
      if !valid || names[i] in seen {
        return false;
      }
      seen := seen + {names[i]};
    }
    return true;
  }

  function ResourceNamesOf(resources: seq<StorageResource>): (names: seq<string>)
    ensures |names| == |resources| && forall i :: 0 <= i < |names| ==> names[i] == resources[i].name
  {
    seq(|resources|, i requires 0 <= i < |resources| => resources[i].name)
  }

  function ServiceNamesOf(services: seq<Deployment>): (names: seq<string>)
    ensures |names| == |services| && forall i :: 0 <= i < |names| ==> names[i] == services[i].name
  {
    seq(|services|, i requires 0 <= i < |services| => services[i].name)
  }

  function DataNamesOf(data: seq<DataResource>): (names: seq<string>)
    ensures |names| == |data| && forall i :: 0 <= i < |names| ==> names[i] == data[i].name
  {
    seq(|data|, i requires 0 <= i < |data| => data[i].name)
  }

  method CheckData(data: seq<DataResource>) returns (ok: bool)
    ensures ok <==> ValidData(data)
  {
    var names := DataNamesOf(data);
    ok := CheckNames(names);
    assert forall i :: 0 <= i < |data| ==> data[i].name == names[i];
  }

  /** The names of resources, of services, and of each service's data. */
  method CheckConfig(cfg: Config) returns (ok: bool)
    ensures ok <==> ValidConfig(cfg)
  {
    var resources, services := ResourceNamesOf(cfg.resources), ServiceNamesOf(cfg.services);
    var named := CheckNames(resources);
    ok := CheckNames(services);
    assert forall i :: 0 <= i < |cfg.resources| ==> cfg.resources[i].name == resources[i];
    assert forall i :: 0 <= i < |cfg.services| ==> cfg.services[i].name == services[i];
    if !named || !ok {
      return false;
    }
    for i := 0 to |cfg.services|
      invariant forall k :: 0 <= k < i ==> ValidData(cfg.services[k].data)
    {
      ok := CheckData(cfg.services[i].data);
      if !ok {
        return false;
      }
    }
    ok := true;
  }

  method Build(target: string, host: Host, cfg: Config, gates: Gates, answers: nat -> Answer,
               details: ChangeId -> Details)
    returns (outcome: BuildOutcome, plan: Plan?)
    ensures outcome.ConfigInvalid? <==> !ValidConfig(cfg)
    ensures outcome.UnsupportedHost? <==> ValidConfig(cfg) && !Admitted(gates)
    ensures outcome.UnsupportedHost? ==>
              var gate := GateOf(outcome.refusal);
              !Passes(gates, gate) && forall earlier :: 0 <= earlier < gate ==> Passes(gates, earlier)
    ensures outcome.ModuleFailed? <==> ValidConfig(cfg) && Admitted(gates) && !NoneFails(answers, 7)
    ensures outcome.ModuleFailed? ==> outcome.m < 7 && answers(outcome.m).ModuleFails? && NoneFails(answers, outcome.m)
    ensures outcome.FinalizeFailed? <==>
              ValidConfig(cfg) && Admitted(gates) && NoneFails(answers, 7) && WaitsInVain(host, cfg)
    ensures outcome.FinalizeFailed? ==> outcome.error.AbsentDependency?
    ensures outcome.Built? <==> plan != null
    ensures plan != null ==>
              fresh(plan) && plan.target == target
              && Finalized(ToChanges(Collected(host, cfg), details), WarningsOf(gates, answers, 7), plan.View())
              && PlansTheDue(host, cfg, plan.changes[..])
  {
    plan := null;
    var valid := CheckConfig(cfg);
    if !valid {
      return ConfigInvalid, null;
    }
    var refusal := Admit(gates);
    if refusal.Some? {
      return UnsupportedHost(refusal.value), null;
    }
    var failed, collected, warnings := AskModules(host, cfg, gates, answers);
    if failed.Some? {
      return ModuleFailed(failed.value), null;
    }
    var sorted;
    sorted, plan := Seal(target, ToChanges(collected, details), warnings);
    FinalizeFailsExactlyWhenUnmet(host, cfg, details, sorted);
    UnmetMeansInVain(host, cfg);
    if plan != null {
      PrintedPlansTheDue(host, cfg, details, plan.changes[..]);
    }
    outcome := if sorted.Sorted_? then Built else FinalizeFailed(sorted);
  }

  lemma FlattenOneMore(plans: seq<seq<Planned>>, m: nat)
    requires m < |plans|
    ensures Flatten(plans[..m + 1]) == Flatten(plans[..m]) + plans[m]
  {
    assert plans[..m + 1][..m] == plans[..m];
  }

  /** The modules in order: their changes and warnings, or the first that fails. */
  method AskModules(host: Host, cfg: Config, gates: Gates, answers: nat -> Answer)
    returns (failed: Option<nat>, collected: seq<Planned>, warnings: seq<Warning>)
    ensures failed.None? <==> NoneFails(answers, 7)
    ensures failed.Some? ==>
              failed.value < 7 && answers(failed.value).ModuleFails? && NoneFails(answers, failed.value)
    ensures failed.None? ==> collected == Collected(host, cfg) && warnings == WarningsOf(gates, answers, 7)
  {
    collected := [];
    warnings := WarnOfHost(gates);
    for m := 0 to 7
      invariant collected == Flatten(ModulePlans(host, cfg)[..m])
      invariant NoneFails(answers, m) && warnings == WarningsOf(gates, answers, m)
    {
      if answers(m).ModuleFails? {
        return Some(m), collected, warnings;
      }
      var changes := CollectModule(host, cfg, m);
      FlattenOneMore(ModulePlans(host, cfg), m);
      collected, warnings := collected + changes, warnings + answers(m).warnings;
    }
    assert ModulePlans(host, cfg)[..7] == ModulePlans(host, cfg);
    failed := None;
  }

  /** A plan over a fresh slice, finalized; none when that fails. */
  method Seal(target: string, changes: seq<Change>, warnings: seq<Warning>)
    returns (sorted: PlanSort.SortError, plan: Plan?)
    ensures PlanSort.Explains(changes, sorted)
    ensures plan != null <==> sorted.Sorted_?
    ensures plan != null ==> fresh(plan) && plan.target == target && Finalized(changes, warnings, plan.View())
  {
    var slice := new Change[|changes|](i requires 0 <= i < |changes| => changes[i]);
    assert slice[..] == changes;
    var result := new Plan(target, slice, warnings);
    sorted := result.Finalize();
    plan := if sorted.Sorted_? then result else null;
  }
}
