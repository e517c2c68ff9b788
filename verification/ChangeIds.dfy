/**
 * The IDs the planning modules give their changes: dot-separated words, told apart whatever the names in them are. The
 * planners are modelled on structured IDs; printing them is injective on valid names, so nothing proved about distinct
 * IDs, dependencies and cycles is lost when the plan is sorted by the printed ones.
 */
module ChangeIds {

  datatype MountStep = Mountpoint | MountConfig | Mount | Blocked

  datatype ServiceStep = Deploy | Update | Placement | Remove | Start | Stop

  datatype ChangeId =
    | DataRoot
    | DataRootPermissions
    | DockerCgroups
    | DockerConflict
    | DockerRepository
    | DockerEngine
    | DockerService
    | DockerCompose
    | SshHardening
    | TailscaleRepository
    | TailscalePackage
    | TailscaleService
    | UnattendedUpdates
    | StorageStep(resource: string, mountStep: MountStep)
    | ServiceChange(service: string, serviceStep: ServiceStep)
    | SelinuxReview(service: string, resource: string)

  function MountWord(step: MountStep): string {
    match step
    case Mountpoint => "mountpoint"
    case MountConfig => "mount-config"
    case Mount => "mount"
    case Blocked => "blocked"
  }

  function ServiceWord(step: ServiceStep): string {
    match step
    case Deploy => "deploy"
    case Update => "update"
    case Placement => "placement"
    case Remove => "remove"
    case Start => "start"
    case Stop => "stop"
  }

  function Words(id: ChangeId): (words: seq<string>)
    ensures words != []
  {
    match id
    case DataRoot => ["base", "data-root"]
    case DataRootPermissions => ["base", "data-root", "permissions"]
    case DockerCgroups => ["docker", "cgroups"]
    case DockerConflict => ["docker", "conflict"]
    case DockerRepository => ["docker", "repository"]
    case DockerEngine => ["docker", "engine"]
    case DockerService => ["docker", "service"]
    case DockerCompose => ["docker", "compose"]
    case SshHardening => ["ssh", "hardening"]
    case TailscaleRepository => ["tailscale", "repository"]
    case TailscalePackage => ["tailscale", "package"]
    case TailscaleService => ["tailscale", "service"]
    case UnattendedUpdates => ["updates", "unattended"]
    case StorageStep(resource, step) => ["storage", resource, MountWord(step)]
    case ServiceChange(service, step) => ["service", service, ServiceWord(step)]
    case SelinuxReview(service, resource) => ["service", service, "selinux", resource]
  }

  function JoinDots(words: seq<string>): string
    requires words != []
  {
    if |words| == 1 then words[0] else words[0] + "." + JoinDots(words[1..])
  }

  function Print(id: ChangeId): string {
    JoinDots(Words(id))
  }

  /** Names the configuration accepts: lower-case letters, digits and hyphens, so never a dot. */
  predicate ValidName(name: string) {
    name != "" && '.' !in name
  }

  predicate ValidId(id: ChangeId) {
    match id
    case StorageStep(resource, _) => ValidName(resource)
    case ServiceChange(service, _) => ValidName(service)
    case SelinuxReview(service, resource) => ValidName(service) && ValidName(resource)
    case _ => true
  }

  ghost predicate Dotless(words: seq<string>) {
    forall i :: 0 <= i < |words| ==> '.' !in words[i]
  }

  lemma FirstDot(a: string, x: string, b: string, y: string)
    requires '.' !in a && '.' !in b && a + "." + x == b + "." + y
    ensures a == b && x == y
  {
    var s := a + "." + x;
    assert s[|a|] == '.' && s[|b|] == '.';
    assert forall i :: 0 <= i < |a| ==> s[i] == a[i] && a[i] in a;
    assert forall i :: 0 <= i < |b| ==> s[i] == b[i] && b[i] in b;
    assert |a| == |b|;
    assert a == s[..|a|] && b == s[..|b|];
    assert x == s[|a| + 1..] && y == s[|b| + 1..];
  }

  lemma {:induction false} JoinDotsInjective(p: seq<string>, q: seq<string>)
    requires p != [] && q != [] && Dotless(p) && Dotless(q) && JoinDots(p) == JoinDots(q)
    ensures p == q
  {
    if |p| > 1 && |q| > 1 {
      FirstDot(p[0], JoinDots(p[1..]), q[0], JoinDots(q[1..]));
      JoinDotsInjective(p[1..], q[1..]);
    }
    assert p == [p[0]] + p[1..] && q == [q[0]] + q[1..];
  }

  lemma WordsDotless(id: ChangeId)
    requires ValidId(id)
    ensures Dotless(Words(id))
  {
  }

  /** Different changes never share an ID, and no ID is empty. */
  lemma PrintInjective(a: ChangeId, b: ChangeId)
    requires ValidId(a) && ValidId(b) && Print(a) == Print(b)
    ensures a == b
  {
    WordsDotless(a);
    WordsDotless(b);
    JoinDotsInjective(Words(a), Words(b));
  }
}

