/** The modules' changes as the strings `Finalize` sorts, and when that fails. */
module PlanFinalizes {
  import opened Text
  import opened PlanGraph
  import opened ChangeIds
  import opened Planner
  import opened PlanClosure
  import PlanSort

  /** What the planner adds to an ID: the module's name and the fields that play no part in ordering. */
  datatype Details = Details(owner: string, action: string, blocked: string)

  function PrintAll(ids: seq<ChangeId>): (r: seq<string>)
    ensures |r| == |ids| && forall i :: 0 <= i < |ids| ==> r[i] == Print(ids[i])
  {
    seq(|ids|, i requires 0 <= i < |ids| => Print(ids[i]))
  }

  function ToChange(p: Planned, details: ChangeId -> Details): Change {
    var d := details(p.id);
    Change(Print(p.id), d.owner, PrintAll(p.dependencies), d.action, d.blocked)
  }

  function ToChanges(ps: seq<Planned>, details: ChangeId -> Details): (cs: seq<Change>)
    ensures |cs| == |ps| && forall i :: 0 <= i < |ps| ==> cs[i] == ToChange(ps[i], details)
  {
    seq(|ps|, i requires 0 <= i < |ps| => ToChange(ps[i], details))
  }

  lemma PrintedDistinct(ps: seq<Planned>, details: ChangeId -> Details)
    requires Gathered(ps, 7)
    ensures DistinctIds(ToChanges(ps, details)) && forall c :: c in ToChanges(ps, details) ==> c.id != ""
  {
    var cs := ToChanges(ps, details);
    forall i, j | 0 <= i < j < |cs|
      ensures cs[i].id != cs[j].id
    {
      assert ps[i] in ps && ps[j] in ps && ps[i].id != ps[j].id;
      if cs[i].id == cs[j].id {
        PrintInjective(ps[i].id, ps[j].id);
      }
    }
  }

  lemma PrintedClosed(ps: seq<Planned>, details: ChangeId -> Details)
    requires Gathered(ps, 7)
    ensures Closed(ToChanges(ps, details)) <==> ClosedIn(ps, IdSet(ps))
  {
    var cs := ToChanges(ps, details);
    forall i, j | 0 <= i < |ps| && 0 <= j < |ps[i].dependencies|
      ensures cs[i].dependencies[j] in Ids(cs) <==> ps[i].dependencies[j] in IdSet(ps)
    {
      assert ps[i] in ps && ps[i].dependencies[j] in ps[i].dependencies;
      PrintedMember(ps, details, ps[i].dependencies[j]);
    }
    assert Closed(cs) <==> ClosedByIndex(cs) by { ClosedIndexed(cs); }
    assert ClosedIn(ps, IdSet(ps)) <==> PlanClosedByIndex(ps) by { PlanClosedIndexed(ps); }
  }

  ghost predicate ClosedByIndex(cs: seq<Change>) {
    forall i, j :: 0 <= i < |cs| && 0 <= j < |cs[i].dependencies| ==> cs[i].dependencies[j] in Ids(cs)
  }

  lemma ClosedIndexed(cs: seq<Change>)
    ensures Closed(cs) <==> ClosedByIndex(cs)
  {
    forall i, j | 0 <= i < |cs| && 0 <= j < |cs[i].dependencies|
      ensures cs[i] in cs && cs[i].dependencies[j] in cs[i].dependencies
    {
    }
  }

  ghost predicate PlanClosedByIndex(ps: seq<Planned>) {
    forall i, j :: 0 <= i < |ps| && 0 <= j < |ps[i].dependencies| ==> ps[i].dependencies[j] in IdSet(ps)
  }

  lemma PlanClosedIndexed(ps: seq<Planned>)
    ensures ClosedIn(ps, IdSet(ps)) <==> PlanClosedByIndex(ps)
  {
    forall i, j | 0 <= i < |ps| && 0 <= j < |ps[i].dependencies|
      ensures ps[i] in ps && ps[i].dependencies[j] in ps[i].dependencies
    {
    }
  }

  lemma PrintedMember(ps: seq<Planned>, details: ChangeId -> Details, id: ChangeId)
    requires Gathered(ps, 7) && ValidId(id)
    ensures Print(id) in Ids(ToChanges(ps, details)) <==> id in IdSet(ps)
  {
    var cs := ToChanges(ps, details);
    if id in IdSet(ps) {
      var i :| 0 <= i < |ps| && ps[i].id == id;
      assert cs[i] in cs;
    }
    if Print(id) in Ids(cs) {
      var i :| 0 <= i < |cs| && cs[i].id == Print(id);
      assert ps[i] in ps;
      PrintInjective(ps[i].id, id);
    }
  }

  ghost predicate PrintsTo(id: ChangeId, s: string) {
    ValidId(id) && Print(id) == s
  }

  ghost function Unprint(s: string): (id: ChangeId)
    requires exists id :: PrintsTo(id, s)
    ensures PrintsTo(id, s)
  {
    var id :| PrintsTo(id, s);
    id
  }

  /** The rank of the change an ID was printed from. */
  ghost function PrintedRank(s: string): nat {
    if exists id :: PrintsTo(id, s) then Rank(Unprint(s)) else 0
  }

  lemma PrintedRankIs(id: ChangeId)
    requires ValidId(id)
    ensures PrintedRank(Print(id)) == Rank(id)
  {
    assert PrintsTo(id, Print(id));
    PrintInjective(id, Unprint(Print(id)));
  }

  lemma PrintedAcyclic(ps: seq<Planned>, details: ChangeId -> Details)
    requires Gathered(ps, 7)
    ensures !HasCycle(ToChanges(ps, details))
  {
    var cs := ToChanges(ps, details);
    forall c, x | c in cs && x in c.dependencies
      ensures PrintedRank(x) < PrintedRank(c.id)
    {
      var i :| 0 <= i < |cs| && cs[i] == c;
      var j :| 0 <= j < |c.dependencies| && c.dependencies[j] == x;
      assert ps[i] in ps && ps[i].dependencies[j] in ps[i].dependencies;
      PrintedRankIs(ps[i].id);
      PrintedRankIs(ps[i].dependencies[j]);
    }
    RankedMeansAcyclic(cs, (s: string) => PrintedRank(s));
  }

  /**
   * Whatever the planners find on the host, `Finalize` never meets a duplicate ID or a cycle; it fails exactly when
   * something is unmet, and then because of an absent dependency.
   */
  lemma FinalizeFailsExactlyWhenUnmet(host: Host, cfg: Config, details: ChangeId -> Details,
                                      outcome: PlanSort.SortError)
    requires ValidConfig(cfg)
    requires PlanSort.Explains(ToChanges(Collected(host, cfg), details), outcome)
    ensures outcome.Sorted_? <==> !Unmet(host, cfg)
    ensures outcome.AbsentDependency? <==> Unmet(host, cfg)
  {
    var ps := Collected(host, cfg);
    assert Gathered(ps, 7) by {
      ModulesContribute(host, cfg);
      GatherAll(ModulePlans(host, cfg), {});
    }
    PrintedDistinct(ps, details);
    PrintedClosed(ps, details);
    PrintedAcyclic(ps, details);
    CollectedClosed(host, cfg);
  }

  // ---- the condition, family by family: corollaries of `CollectedClosed`

  /**
   * Docker is fully ready, but not from the distribution's package: the service change it would need is not planned.
   */
  predicate Unpackaged(d: DockerFacts) {
    !d.installed && DockerReady(d)
  }

  /** On Debian, Ubuntu, Raspberry Pi OS and Arch that is the only problem. */
  lemma UnmetOnApt(host: Host, cfg: Config)
    requires host.family.Apt? || host.family.Arch?
    ensures Unmet(host, cfg) <==> EmitsDependent(host, cfg) && Unpackaged(host.docker)
  {
  }

  /** Devuan never plans Compose, so a service cannot be planned while Compose is missing. */
  lemma UnmetOnDevuan(host: Host, cfg: Config)
    requires host.family.Devuan?
    ensures Unmet(host, cfg) <==>
            EmitsDependent(host, cfg) && (!host.docker.composeAvailable || Unpackaged(host.docker))
  {
  }

  /** Alpine and Artix never plan Compose either, and plan no Docker service change without cgroups. */
  lemma UnmetOnAlpineAndArtix(host: Host, cfg: Config)
    requires host.family.Alpine? || host.family.Artix?
    ensures Unmet(host, cfg) <==>
            EmitsDependent(host, cfg) &&
            (!host.docker.composeAvailable || Unpackaged(host.docker)
             || (!DockerReady(host.docker) && !host.docker.cgroupsAvailable))
  {
  }

  /** Whether a planner that may stop before the Docker stack leaves a dependent service without what it needs. */
  predicate StoppedShort(d: DockerFacts, stops: bool) {
    Unpackaged(d) || (stops && (!DockerReady(d) || !d.composeAvailable))
  }

  /** openSUSE and Fedora stop at a conflicting package. */
  lemma UnmetOnOpenSuseAndFedora(host: Host, cfg: Config)
    requires host.family.OpenSuse? || host.family.Fedora?
    ensures Unmet(host, cfg) <==> EmitsDependent(host, cfg) && StoppedShort(host.docker, host.docker.conflicting)
  {
  }

  /** Enterprise Linux stops at a conflicting package, a foreign repository, or a release that was not reviewed. */
  lemma UnmetOnEnterpriseLinux(host: Host, cfg: Config)
    requires host.family.EnterpriseLinux?
    ensures var d := host.docker;
            Unmet(host, cfg) <==>
            EmitsDependent(host, cfg) && StoppedShort(d, d.conflicting || d.repositoryUnmanaged || !d.sourceReviewed)
  {
  }

  /** What Void's planner stops at: the package source, a held package, or missing cgroups. */
  predicate VoidStops(d: DockerFacts) {
    !d.sourceReviewed || d.repositoryUnmanaged || d.held || !d.cgroupsAvailable
  }

  /**
   * Void plans Compose only next to an installed engine, and makes it wait for the Docker service even when that is
   * ready and has no change: then planning fails although no service needs one.
   */
  lemma UnmetOnVoid(host: Host, cfg: Config)
    requires host.family.Void?
    ensures var d := host.docker;
            Unmet(host, cfg) <==>
            || (cfg.services != [] && !VoidStops(d) && !d.composeAvailable && !NeedEngine(Void, d) && DockerReady(d))
            || (EmitsDependent(host, cfg) &&
                (StoppedShort(d, VoidStops(d)) || (!d.composeAvailable && NeedEngine(Void, d))))
  {
  }

  // ---- hosts on which planning fails

  /** One service to be started, with no data of its own. */
  function OneService(name: string): Config {
    Config(true, false, false, false, [], [Deployment(name, Running, [])])
  }

  /** A service the host does not have yet is planned, and depends on Docker. */
  lemma OneServiceDepends(host: Host, name: string)
    requires ValidName(name) && !host.service(name).present
    ensures ValidConfig(OneService(name)) && EmitsDependent(host, OneService(name))
  {
    var deployment := Deployment(name, Running, []);
    assert deployment in OneService(name).services;
    assert Dependent(host, deployment);
  }

  /** On every family: Docker runs, but not from the distribution's package. */
  lemma UnpackagedFails(host: Host, name: string)
    requires Unpackaged(host.docker) && ValidName(name) && !host.service(name).present
    ensures ValidConfig(OneService(name)) && Unmet(host, OneService(name))
  {
    OneServiceDepends(host, name);
  }

  /** Devuan, Alpine and Artix: Compose is missing. */
  lemma ComposeNeverPlannedFails(host: Host, name: string)
    requires host.family.Devuan? || host.family.Alpine? || host.family.Artix?
    requires !host.docker.composeAvailable && ValidName(name) && !host.service(name).present
    ensures ValidConfig(OneService(name)) && Unmet(host, OneService(name))
  {
    OneServiceDepends(host, name);
  }

  /** Void: everything but Compose is there, and whatever the service's own state, its plan cannot be finalized. */
  lemma VoidFails(host: Host, name: string)
    requires host.family.Void? && !VoidStops(host.docker) && !NeedEngine(Void, host.docker)
    requires DockerReady(host.docker) && !host.docker.composeAvailable && ValidName(name)
    ensures ValidConfig(OneService(name)) && Unmet(host, OneService(name))
  {
  }

  /**
   * A planner that stops early (a conflicting package, a foreign repository, an unreviewed source, missing cgroups)
   * says why in a change; but the service's dependencies make the whole plan fail, so that change is never shown.
   */
  lemma StopIsLost(host: Host, name: string, p: Planned)
    requires DockerStop(host.family, host.docker).Some? && p in DockerStop(host.family, host.docker).value
    requires !DockerReady(host.docker) || !host.docker.composeAvailable
    requires ValidName(name) && !host.service(name).present
    ensures ValidConfig(OneService(name)) && Unmet(host, OneService(name))
    ensures p in Collected(host, OneService(name))
  {
    OneServiceDepends(host, name);
    PartCollected(host, OneService(name), 1, p);
  }

  lemma PartCollected(host: Host, cfg: Config, m: nat, p: Planned)
    requires m < 7 && p in ModulePlan(host, cfg, m)
    ensures p in Collected(host, cfg)
  {
    FlattenHas(ModulePlans(host, cfg), m, p);
  }

  lemma {:induction false} FlattenHas(plans: seq<seq<Planned>>, m: nat, p: Planned)
    requires m < |plans| && p in plans[m]
    ensures p in Flatten(plans)
  {
    if m < |plans| - 1 {
      FlattenHas(plans[..|plans| - 1], m, p);
    }
  }
}
