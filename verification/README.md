# Verification of Bebop's planning, backup and maintenance logic

Bebop plans, applies, backs up and schedules work on hosts. This project models the deterministic core of that work in
Dafny 4.11 and proves what it promises: an order of changes that respects dependencies and is unique, an executor that
keeps to it, a worker pool without races, notifications that neither repeat nor go missing without a reason, snapshots
that hold what was delivered and verify until they are deleted, a restore that never overwrites data, and schedules
that settle and run on time. `dafny verify
dfyconfig.toml` checks everything.

## How it is laid out

- **Plan and apply.** `PlanGraph`, `PlanSort` and `PlanFinalize` order and seal a plan; `ChangeIds`, `Planner`,
  `PlanClosure`, `PlanFinalizes` and `PlanBuild` assemble one from the modules of all nine operating-system families;
  `PlanReasons` says independently what is due and what waits for what; `Apply` executes it.
- **Fleet.** `Fleet` is a step relation over dispatcher, channel and workers; every interleaving is one of its runs.
- **Notification.** `NotificationTrace` says what a run may look like from its trace alone; `NotificationService` is
  the program, proved to keep to it and to save exactly what the trace says.
- **Backup.** `Paths` and `Archive` clean paths and sanitize tar streams; `Snapshot` verifies a directory against its
  manifest; `Repository` stages, completes, lists and deletes; `Retention` selects and removes; `ServiceTrace`,
  `Create` and `Restore` stop, work on and restart services.
- **Maintenance.** `History` is the pruned run log, `Runner` one invocation and its window, `Invocations` any number
  of them at once; `Reconcile`, `Launchd` and `Systemd` reconcile schedules.
- **Inputs.** `Quote`, `Decimals`, `Recipes`, `Upgrades` and `StoragePaths`. `Text`, `Ordering` and `Keyed` are
  shared.

## What stands for the outside

Answers of targets, sinks and tools are functions of everything done so far, nondeterministic choices, or fault
parameters, so each theorem covers every behaviour they can show. Clocks, random identifiers and host facts are
parameters. Hashes and encodings are injective: a sum or an encoded file stands for what it was made from. Directories
are maps from names or slash-separated paths; renames and removals of one name are single steps. Locks are exclusive
ownership.

## What the proofs found

- On every family a host where Docker is fully ready but its package is absent cannot be planned as soon as one
  service needs a change: the service waits for a change of the Docker service, `docker.service`, that nobody plans.
  Devuan, Alpine and Artix never plan Compose, and Void's Compose change waits for a service change that may not
  exist. Where a Docker planner stops early, at a conflicting package for instance, a service makes the whole plan
  fail, and the change that says why is never shown. The exact condition is proved once for all nine families and
  spelled out for each, with inputs on which planning fails.
- "Escalated" compares with the severity seen last, so error, warning, error is sent again within the cooldown.
- Informational events open no issue, so `updates.cleared` has nothing to recover.
- A snapshot whose directories can neither be made read-only nor moved back is listed although completing it reported
  an error; it does verify, and this is the only way a failing backup publishes anything.
- A provenance that fails validation in `SetMaintenance` stays recorded, and `Create` then returns before it arranges
  to remove the staging directory: these are exactly the runs that leave it behind although nothing failed to be
  removed.
- Nothing follows a stop that reported failure, neither in a backup nor in a restore, so the service gets no restart
  attempt. After a successful restore exactly the running services without a Bebop deployment are down.
- A history record whose run identifier lacks the `run-` prefix is written but never listed or pruned; generated
  identifiers always have it.
- Retention goes by the identifiers that manifests state: a copy of a snapshot under another directory name counts as
  a second one and has the original removed. Every operation of the program keeps names and identifiers equal.
- Version parts from 2^63 - 1 on compare as equal.

## Model

| member | source | states |
|---|---|---|
| `PlanSort.SortChanges` | `internal/plan/plan.go:100-147` | On success the slice holds the canonical order of the changes it came with: a permutation, every change after all its dependencies, and least by ID among all such orders. On an error the slice is untouched and the error names what is wrong: the first empty or repeated ID, a dependency that is absent, or a cycle. |
| `PlanSort.FailsExactlyWhen` | `internal/plan/plan.go:100-147` | Sorting succeeds exactly on distinct, non-empty IDs with every dependency present and no cycle, and it blames a cycle exactly when the graph has one; self-dependencies count, repeated entries do not matter. |
| `PlanSort.IndexById` | `internal/plan/plan.go:101-110` | Every ID gets the position of its change, or the first empty or repeated ID is reported. |
| `PlanSort.CountEdges` | `internal/plan/plan.go:111-121` | In-degrees and successor lists tabulate exactly the dependency entries, with repetitions, or an absent dependency is reported. |
| `PlanSort.InitialReady` | `internal/plan/plan.go:122-128` | The first ready list is sorted and holds exactly the changes nothing holds back. |
| `PlanSort.Release` | `internal/plan/plan.go:129-141` | Releasing the successors of an emitted change keeps the ready list sorted and exactly the enabled changes in it, however often a dependency is repeated. |
| `PlanSort.Emit` | `internal/plan/plan.go:129-141` | The emitted order is greedy (each step the least enabled ID) and stops only when nothing is enabled. |
| `PlanSort.CompleteIffAcyclic` | `internal/plan/plan.go:142-146` | The greedy order reaches every change exactly when there is no cycle. |
| `PlanGraph.GreedyIsLeast` | `internal/plan/plan.go:122-141` | A greedy order of all changes is lexically least among all topological orders. |
| `PlanGraph.CanonicalUnique` | `internal/plan/plan.go:100-147` | The order depends only on which changes there are, not on the order they were collected in. |
| `PlanGraph.StuckMeansCycle` | `internal/plan/plan.go:142-144` | Where every change of a non-empty set waits for another of the set, there is a cycle. |
| `PlanGraph.OrderedMeansAcyclic` | `internal/plan/plan.go:142-144` | A graph with a topological order has no cycle. |
| `PlanFinalize.Plan.Finalize` | `internal/plan/plan.go:84-98` | Changes are put in canonical order, warnings are sorted, and the fingerprint covers target, changes and warnings; on an error nothing changes. |
| `PlanFinalize.FingerprintIdentifies` | `internal/plan/plan.go:80-98` | Where a warning ID always stands for the same warning, two finalized plans have the same fingerprint exactly when they were assembled from the same target, changes and warnings, in any order. |
| `PlanBuild.PlanStorage` | `internal/modules/storage.go:21-44` | The loop emits the three-step mount chain, the single blocked step, or nothing, for each declared resource in turn. |
| `PlanBuild.PlanServices` | `internal/modules/compose.go:28-125` | The loop emits each deployment's changes with their storage, runtime and service dependencies. |
| `PlanClosure.ModuleContributes` | `internal/planner/planner.go:74-81` | For a valid configuration each of the seven modules adds only IDs of its own, each once and with valid names, and every change ranks above all it depends on; so the union never repeats an ID or has a cycle. |
| `PlanBuild.Build` | `internal/planner/planner.go:26-86` | Building fails for an invalid configuration, at the first gate that refuses the host, at the first module that fails, or exactly when a change that is due waits for one that is not. Otherwise the plan is the finalized union of all module outputs with the warnings of host and modules, and holds exactly the changes that are due for the facts, each listing exactly the changes it waits for. |
| `PlanReasons.CollectedIsDue` | `internal/planner/planner.go:74-81` | A second definition says change by change, from facts and configuration alone, what is due and what waits for what; the modules together plan exactly the due changes, and the dependencies of each are exactly what it waits for. |
| `PlanReasons.DockerSays` | `internal/modules/docker.go:19-624` | So it is for the Docker planners of all nine families: stops, cgroups, engine, service and Compose. |
| `PlanReasons.EngineExactlyWhenMissing` | `internal/modules/docker.go:48-573` | Where the stack is planned, the engine is changed exactly when the package is missing or, where the family asks for them, the package set or the repository. |
| `PlanReasons.DockerWaitsForEarlier` | `internal/modules/docker.go:54-83` | The service and Compose changes wait for exactly the Docker changes planned before them; Void's Compose change waits for the service alone. |
| `PlanReasons.MountsAreNeeded` | `internal/modules/compose.go:126-175` | A service waits for the mount of a storage exactly when the plan prepares that storage and its data uses it before any storage that cannot be used. |
| `PlanReasons.DeploymentSays` | `internal/modules/compose.go:28-125` | One service gets reviews alone, or a removal, or a deployment of the kind its facts call for and a start or stop that waits for it. |
| `PlanReasons.ResourceSays` | `internal/modules/storage.go:21-44` | One storage gets the mount chain, a blocked step, or nothing, by its state. |
| `PlanReasons.TailscaleSays` | `internal/modules/tailscale.go:20-390` | The Tailscale planners: package, repository and service, and when the service waits for the package. |
| `PlanReasons.UnmetMeansInVain` | `internal/planner/planner.go:74-84` | The condition on the Docker facts under which planning fails is that some due change waits for one that is not due. |
| `PlanBuild.Admit` | `internal/planner/planner.go:30-66` | A host is admitted exactly when it passes all seven gates; otherwise the first it fails is named, and with missing tools exactly those that are missing. |
| `PlanFinalizes.FinalizeFailsExactlyWhenUnmet` | `internal/planner/planner.go:74-84` | For every host and configuration the union of module outputs never has a repeated ID or a cycle; finalizing fails exactly when a caller-checkable condition on the Docker facts holds, and then for an absent dependency. |
| `PlanClosure.CollectedClosed` | `internal/modules/compose.go:229-246` | The union of all module outputs is closed under dependencies exactly when nothing is unmet, over all nine operating-system families. |
| `PlanClosure.ServicesClosed` | `internal/modules/compose.go:28-175` | The dependencies of the planned service changes are all planned exactly when each emitting service finds its storage steps and Docker changes planned. |
| `PlanClosure.DockerClosed` | `internal/modules/docker.go:19-92` | The Docker planner's own dependencies are closed except for Void's Compose change. |
| `PlanFinalizes.UnmetOnApt` | `internal/modules/docker.go:47-83` | Corollary for Debian, Ubuntu, Raspberry Pi OS and Arch: planning fails exactly when a dependent service is planned while Docker is fully ready without its package. |
| `PlanFinalizes.UnmetOnDevuan` | `internal/modules/docker.go:94-125` | Corollary for Devuan, which never plans Compose: planning fails exactly when a dependent service is planned and Compose is missing or Docker runs without its package. |
| `PlanFinalizes.UnmetOnAlpineAndArtix` | `internal/modules/docker.go:127-237` | Corollary for Alpine and Artix, which never plan Compose either; the condition adds missing cgroups. |
| `PlanFinalizes.UnmetOnVoid` | `internal/modules/docker.go:272-336` | Corollary for every Void host: Compose is planned only beside an installed engine and waits for a service change that is not planned when the service is ready; and a planner that stopped, or an engine still to come, leaves dependent services short. |
| `PlanFinalizes.UnmetOnOpenSuseAndFedora` | `internal/modules/docker.go:387-442` | Corollary for openSUSE and Fedora: planning fails exactly when a dependent service is planned and Docker runs without its package, or a conflicting package stopped a Docker plan the service needs. |
| `PlanFinalizes.UnmetOnEnterpriseLinux` | `internal/modules/docker.go:443-519` | Corollary for Enterprise Linux: the same, where a foreign repository and an unreviewed release stop the planner too. |
| `PlanFinalizes.UnpackagedFails` | `internal/modules/compose.go:229-246` | An input on every family: one service to start fails on any host where Docker runs but its package is absent. |
| `PlanFinalizes.ComposeNeverPlannedFails` | `internal/modules/compose.go:229-246` | An input on Devuan, Alpine and Artix: one service to start fails wherever Compose is missing. |
| `PlanFinalizes.VoidFails` | `internal/modules/docker.go:272-336` | An input on Void: a service fails wherever only Compose is missing, whatever its own state. |
| `PlanFinalizes.StopIsLost` | `internal/modules/docker.go:387-442` | An input on every family whose planner can stop early: the change that explains the stop is collected, yet the plan fails as a whole, so it is never shown. |
| `ChangeIds.PrintInjective` | `internal/modules/compose.go:186-192` | Printed change IDs of valid names never collide across modules, resources and services. |
| `Apply.Execute` | `internal/apply/apply.go:27-78` | Every run is some whole apply-and-verify rounds, at most one broken round, a re-plan, and the lock released; the error tells which step failed, and the final plan returned is the answer of the re-plan made in the state those rounds left. It succeeds exactly when nothing is blocked, every round succeeds and that plan has no unblocked change; a blocked change anywhere means nothing runs. |
| `Apply.RunRounds` | `internal/apply/apply.go:46-78` | Under the lock the rounds run in plan order and stop at the first failure. |
| `Apply.FirstDivergence` | `internal/apply/apply.go:68-77` | The final plan is clean exactly when each of its changes is blocked; otherwise the first unblocked one is named. |
| `Apply.ResultsArePrefixes` | `internal/apply/apply.go:27-78` | Applied and verified are prefixes of the plan that differ by at most one; success means the whole plan was verified. |
| `Apply.AppliedAfterDependencies` | `internal/apply/apply.go:46-67` | Sorting and execution compose: whenever a change is applied, each of its dependencies was applied and verified successfully earlier in the same run. |
| `Fleet.Launch` | `internal/fleet/fleet.go:17-30` | Parallelism below one is refused, no input returns at once, otherwise min(parallel, n) workers start. |
| `Fleet.RunInv` | `internal/fleet/fleet.go:29-68` | The invariant of dispatcher, channel, workers and result cells holds in every state of every interleaving. |
| `Fleet.BoundedConcurrency` | `internal/fleet/fleet.go:31-51` | At most min(parallel, n) operations are in flight at any moment. |
| `Fleet.WritesNeverRace` | `internal/fleet/fleet.go:45-59` | Steps different actors could take at the same time never write the same result cell, cancellation marks included. |
| `Fleet.WritesAreAll` | `internal/fleet/fleet.go:45-59` | A step leaves every result cell alone that is not among the cells it is said to write. |
| `Fleet.HandedOutOnce` | `internal/fleet/fleet.go:52-64` | No index is handed out twice; what is handed out is an initial part of the inputs. |
| `Fleet.ReturnedMeansComplete` | `internal/fleet/fleet.go:53-68` | At return each index was operated on exactly once and holds that result, or was never handed out and holds the context error. |
| `Fleet.ResultsAreKept` | `internal/fleet/fleet.go:45-68` | What an operation returned, value and error, is what the cell of its input holds when Map returns. |
| `Fleet.OperatedOnce` | `internal/fleet/fleet.go:29-68` | Every index that was handed out was operated on by exactly one step before the return. |
| `Fleet.NeverStuck` | `internal/fleet/fleet.go:29-68` | Until it returns something can always happen, also after all workers left on cancellation. |
| `Fleet.RunsEnd` | `internal/fleet/fleet.go:29-68` | Every run is shorter than a bound fixed at its start. |
| `NotificationService.Service.Process` | `internal/notification/service.go:66-96` | From an empty store on, the saved issues are exactly what the trace of committed batches says; a committed batch adds a legal continuation and reports its attempts. A failing batch leaves the saved state as it was, although what was attempted is that of none of its events, of all, or of the first of them and of the next one up to the route that failed. |
| `NotificationService.Service.WithLock` | `internal/notification/state.go:119-133` | The transaction: issues are loaded and checked under the lock and saved only after the whole batch succeeded. |
| `NotificationService.Service.ProcessEvent` | `internal/notification/service.go:98-159` | Every event extends the trace legally and in the shape the policy gives it, keeping state and trace in agreement. |
| `NotificationService.Service.ProcessRecovery` | `internal/notification/service.go:101-117` | A recovery tells the selected routes that got the problem and then closes the issue. |
| `NotificationService.Service.ProcessInformation` | `internal/notification/service.go:118-127` | An informational event is sent to matching routes and opens no issue. |
| `NotificationService.Service.ProcessProblem` | `internal/notification/service.go:128-159` | A problem opens or updates its issue and attempts or suppresses each matching route. |
| `NotificationService.Service.DeliverOne` | `internal/notification/service.go:170-188` | Exactly one attempt is made when the sink is known, with whatever outcome the sink gives, and none otherwise; it succeeds only if it could be recorded. |
| `NotificationService.Service.RunBatch` | `internal/notification/service.go:87-94` | Inside the transaction the events of a batch are processed in order until one fails, and that one has been processed for the first of its routes. |
| `NotificationService.SetRouteDelivery` | `internal/notification/service.go:228-237` | Exactly the named route's mark changes, and marks stay unique by route. |
| `NotificationService.FindIssue` | `internal/notification/service.go:210-217` | The issue with a fingerprint, or none. |
| `NotificationTrace.MarkIsLastDelivery` | `internal/notification/service.go:219-237` | A route's mark is the last successful delivery of the issue to it since the issue opened. |
| `NotificationTrace.RecoveryFollowsDelivery` | `internal/notification/service.go:101-117` | A recovery is only ever sent to a route that got the problem in the same episode. |
| `NotificationTrace.RepeatNeedsReason` | `internal/notification/service.go:134-157` | Within an episode a route that already got the issue is attempted again exactly when severity rose at the last observation or its whole cooldown has passed. |
| `NotificationTrace.NeverSkippedBeforeSuccess` | `internal/notification/service.go:134-157` | A matching route without a success in the episode is never skipped. |
| `NotificationTrace.RisingComparesNeighbours` | `internal/notification/service.go:128-137` | "Escalated" compares the latest observation with the one just before it and nothing earlier. |
| `NotificationTrace.EscalationForgetsThePeak` | `internal/notification/service.go:134-157` | Three events of one issue, error, warning and error one time unit apart, and one route with a cooldown of 60 that matches them: the batch delivers the third event again although the peak was already delivered. |
| `NotificationTrace.InformationLeavesNothingToRecover` | `internal/notification/service.go:118-127` | A fingerprint seen only in informational events never has an open issue, so its recovery sends nothing. |
| `NotificationTrace.BatchIsLegal` | `internal/notification/service.go:66-159` | Batches whose events each add a legal continuation are legal continuations as a whole, of any history. |
| `NotificationTrace.BatchReachesWhoWantsIt` | `internal/notification/service.go:98-159` | For each event of a committed batch exactly the routes get an entry that want it by their own fields, severities and events for problems and information, recovery notices and the seven recovery pairs for recoveries, a recovery only if its problem was delivered there; and entries are of the event's kind. |
| `NotificationService.MatchRoute` | `internal/notification/service.go:247-274` | The matching loops decide exactly that a route wants an event. |
| `Archive.RewriteArchive` | `internal/backup/repository.go:602-642` | Rewriting succeeds exactly on well-ended streams of at most 1,000,000 acceptable entries whose cleaned names are distinct, with the context alive and the output writable throughout. Every entry comes out in order under its cleaned name with its kind, a file with its whole content, a symlink with its target, and permission bits alone; a failure leaves a beginning of that. |
| `Archive.RewriteEntry` | `internal/backup/repository.go:620-632` | One entry is passed on, sanitized, exactly when it is acceptable and its cleaned name is new. |
| `Archive.SafeNames` | `internal/backup/repository.go:666-675` | A name is accepted exactly when it is printable, relative and the depth of each of its prefixes is at least zero, and it comes out cleaned. |
| `Archive.LinkStaysInside` | `internal/backup/repository.go:677-686` | A symlink target is accepted exactly when, from its entry's directory, every prefix has a depth of at least zero. |
| `Archive.OutputStaysInside` | `internal/backup/repository.go:602-686` | Every accepted output entry and link stays inside the root, and accepted names are pairwise distinct. |
| `Archive.RewriteIsIdempotent` | `internal/backup/repository.go:602-646` | What was rewritten is accepted again and rewritten to itself. |
| `Paths.CleanRelative` | `internal/backup/repository.go:670-674` | Cleaning a relative path gives its resolved components back, names after leading parents. |
| `Paths.PointsUpMeansAbove` | `internal/backup/repository.go:670-674` | A cleaned path points up exactly when the path leads above its start at some prefix. |
| `Snapshot.VerifyPath` | `internal/backup/repository.go:520-600` | Verification succeeds exactly when the manifest is valid and sealed and the regular files other than the manifest correspond one to one with its archive paths, each with equal size and digest and itself an acceptable archive, and nothing but folders is beside them. |
| `Snapshot.CheckManifest` | `internal/backup/repository.go:422-480` | The loops accept exactly the valid manifests: identifier, provenance, ordered services and resources, sizes, digests and archive paths. |
| `Snapshot.VerifiedIsBijective` | `internal/backup/repository.go:529-598` | In a directory that verifies the stored files are exactly the resources' archives, and as many. |
| `Snapshot.ExpectedArchives` | `internal/backup/repository.go:528-537` | Expected archives are collected by path, refusing exactly the manifests that repeat one. |
| `Snapshot.CheckEntry` | `internal/backup/repository.go:538-589` | One directory entry passes exactly when it is a folder, the manifest, or the file its resource describes. |
| `Snapshot.Walk` | `internal/backup/repository.go:538-592` | The walk succeeds exactly when every entry passes, and reports the archives it met. |
| `Repository.Repository.Begin` | `internal/backup/repository.go:158-174` | A new identifier gets an empty staging directory and an open stage; nothing becomes visible. |
| `Repository.Stage.SetMaintenance` | `internal/backup/repository.go:180-191` | Provenance is recorded even when its validation is reported as failed, and not at all once closed. |
| `Repository.Stage.AddService` | `internal/backup/repository.go:193-209` | A service is added exactly when the stage is open, the entry complete and the name new; services stay strictly ordered and its resources sorted. |
| `Repository.Stage.WriteArchive` | `internal/backup/repository.go:214-244` | Exactly an accepted stream under a safe, free path yields a description, which matches the file just stored; that file holds every entry with the content and link it came with. A failure leaves at most that one file. |
| `Repository.BlockedMeansUnfit` | `internal/backup/repository.go:214-244` | A free path is refused exactly when a file there would not fit into the directory tree. |
| `Repository.Stage.Complete` | `internal/backup/repository.go:246-288` | A stage completes at most once, and exactly when its directory can take the sealed manifest, verifies with it, its name is free and nothing fails; a failure publishes nothing, except that a directory that can neither be protected nor moved back stays published. Other stages are untouched. |
| `Repository.Stage.Publish` | `internal/backup/repository.go:265-286` | The steps after verification, with their roll-back. |
| `Repository.Stage.Abort` | `internal/backup/repository.go:290-293` | The stage closes and its directory goes. |
| `Repository.Repository.List` | `internal/backup/repository.go:303-332` | Exactly the loadable snapshots under valid names, each once, ordered by identifier. |
| `Repository.Repository.Verify` | `internal/backup/repository.go:334-347` | The manifest of a snapshot that corresponds to it, or none. |
| `Repository.Repository.Delete` | `internal/backup/repository.go:352-367` | Only a snapshot that verifies is removed, and no other directory changes. |
| `Repository.VerifiesUntilDeleted` | `internal/backup/repository.go:246-367` | Over every run of operations a snapshot that verifies goes on verifying, as the same manifest, until it is deleted. |
| `Repository.OnlyCompletedIsListed` | `internal/backup/repository.go:246-332` | Over every run, directory names keep matching manifest identifiers, and what is listed was listed before or was published by a completing stage, also one that reported an error. |
| `Repository.StepKeepsNamed` | `internal/backup/repository.go:246-288` | Every operation keeps directory names equal to manifest identifiers. |
| `Retention.PlanRetention` | `internal/backup/retention.go:22-68` | The plan removes exactly the oldest surplus, by creation time and then identifier, of what verifies under the identifier its manifest states; corrupt ones of the scope are listed, sorted, and never removed. Where directories carry those identifiers, that is each verified snapshot of the scope once. |
| `Retention.MisnamedCopy` | `internal/backup/retention.go:38-67` | An input on which the names differ: with a copy of a snapshot under another name, keeping one removes the snapshot and leaves nothing of the scope that verifies. |
| `Retention.ApplyRetention` | `internal/backup/retention.go:72-79` | Deletion follows the plan and stops at the first failure, having deleted exactly the plan's first entries and touched nothing but the failing one. |
| `Retention.PlannedIsDeletable` | `internal/backup/retention.go:72-79` | Every snapshot of a fresh plan still verifies when its turn comes, so without a fault the application succeeds. |
| `Retention.KeepsNewest` | `internal/backup/retention.go:22-79` | After planning and applying, the scope's verified snapshots are its newest min(n, k): each removed one was created before each kept one, or at the same time with a lesser identifier; every other directory is untouched. |
| `Retention.ReplanRemovesNothing` | `internal/backup/retention.go:22-79` | Planning again after success removes nothing. |
| `Retention.OthersAreNoCandidates` | `internal/backup/retention.go:40-50` | Corollary of the definition: manual, other-scope and corrupt snapshots are never candidates. |
| `Create.Create` | `internal/backup/create.go:48-153` | Every service that asks to be stopped and runs is captured only while down, no other service is stopped, never two are down together, every service that was stopped gets a restart attempt before return unless its configuration cannot be digested, and nothing follows a stop that failed. Every step is about a selected service, comes after all its resources were found ready where it stops or captures, and went as the target answered. Success means everything answered well, nothing is down, and exactly one verified snapshot was published that covers every selected service and holds, for each of its resources, every entry of the stream delivered for it; every run changes the completed snapshots at most as publishing its draft under its fault does, and a failure has one of the listed causes. Other staging directories are untouched, and the run's own is gone unless removing it failed or the run was refused for its provenance. |
| `Create.PublishedArchived` | `internal/backup/create.go:116-153` | What the stage holds of each resource, the published snapshot holds: no archive stands where the manifest goes. |
| `Create.AbandonsForProvenance` | `internal/backup/create.go:78-88` | With the rest of the manifest in order, a run leaves its empty staging directory exactly when it is given a provenance that is not valid. |
| `Create.AbandoningRun` | `internal/backup/create.go:78-88` | There is such a run: one service, and a provenance that names no job. |
| `Create.FailureLeavesPublished` | `internal/backup/repository.go:275-284` | A failing run leaves a new snapshot that verifies exactly when the draft was complete, its directories could not be protected, and it could not be moved back; no other snapshot is ever affected. |
| `Create.BackUpService` | `internal/backup/create.go:94-146` | One service is checked, stopped if its consistency asks for it, captured and restarted; only an undigestible configuration leaves it down. |
| `Create.CaptureService` | `internal/backup/create.go:122-131` | All resources of a service are captured in order and recorded as one manifest entry. |
| `Create.CaptureAll` | `internal/backup/create.go:123-130` | Captures run in declaration order until one fails, each into an archive with what was delivered at that point, and none touches an earlier one. |
| `Create.Capture` | `internal/backup/create.go:174-198` | A capture succeeds exactly when the target sent the stream to the end and the stage took it, and describes the stored file, which holds every entry of the stream. |
| `Create.SelectKeepsNames` | `internal/backup/create.go:155-172` | Selection keeps exactly the services with data that were asked for, names distinct. |
| `Restore.ApplyRestore` | `internal/backup/restore.go:384-494` | Nothing happens before the snapshot verifies again with the reviewed digest; running services, and no others, are stopped before anything is streamed into them, and nothing follows a stop that failed; every stream goes into a destination just observed empty, or missing and then created; every step is one of a selected service and went as the target answered; only running services Bebop never deployed can stay down, and after a success exactly those are; what was streamed is a prefix of the expected list, and all of it on success. A failure without a failed step has one of the stated causes. |
| `Restore.RestoreAll` | `internal/backup/restore.go:433-486` | The discipline over all selected services in turn; on success the services left down are exactly the running ones without a deployment. |
| `Restore.RestoreService` | `internal/backup/restore.go:433-482` | One service: stopped if running, restored, and restarted if it was stopped and deployed; on success it is down exactly if it was running without a deployment. |
| `Restore.RestoreResources` | `internal/backup/restore.go:496-536` | The resources of one service in manifest order until one fails or is refused. |
| `Restore.RestoreResource` | `internal/backup/restore.go:501-533` | A resource is streamed only into the state that was reviewed, missing or empty; a failure without a failed step means a changed mapping, a state other than the reviewed one, or an archive that cannot be opened. |
| `Restore.CheckPlacement` | `internal/backup/restore.go:436-465` | Every placed resource has a snapshot counterpart, a ready placement and, if planned, enough room. |
| `Restore.SelectServices` | `internal/backup/restore.go:153-183` | Selection succeeds exactly when every wanted service of the snapshot is declared, active and configured as when it was saved. |
| `Restore.SavedIsRestorable` | `internal/backup/restore.go:166-176` | What a backup of a declared service records is restorable under the same declarations. |
| `ServiceTrace.Extend` | `internal/backup/create.go:94-146` | One more event keeps the stop, work and restart discipline of a run. |
| `History.History.Append` | `internal/maintenance/history.go:86-125` | After any appends of distinct runs the newest records shown are those of the log that is never pruned; on success at most the maximum is shown; a failed write changes nothing, a failed prune loses no newest record; files the history does not list are left alone. |
| `History.UnprefixedIsNeverListed` | `internal/maintenance/history.go:137-139` | A record whose run identifier lacks the prefix run- is in no listing. |
| `History.UnprefixedStays` | `internal/maintenance/history.go:86-125` | The file of such a record is there after it is appended, whatever was pruned. |
| `History.UnprefixedRecord` | `internal/maintenance/history.go:180-188` | There are such records among the valid ones. |
| `Runner.GeneratedIsListed` | `internal/maintenance/model.go:264-270` | Every generated run identifier is valid and carries the prefix, so its record is listed. |
| `Runner.GeneratedApart` | `internal/maintenance/model.go:264-270` | Generated identifiers differ whenever the instants or the random bytes do. |
| `History.History.List` | `internal/maintenance/history.go:127-161` | Exactly the shown records of the job, later starts first and greater run identifiers first among equals; for all jobs, the first maxEntries of the never-pruned ranked log. |
| `History.History.Prune` | `internal/maintenance/history.go:163-178` | The newest maxEntries are kept, the rest removed in order until a removal fails. |
| `History.InsertThenTake` | `internal/maintenance/history.go:163-178` | Pruning before or after an append keeps the same newest records. |
| `History.RankedLogIsSorted` | `internal/maintenance/history.go:152-160` | The ranked log holds exactly the records with listed names, later starts first and greater run identifiers first among equals. |
| `Runner.WindowIsAnArc` | `internal/maintenance/model.go:238-253` | A window is open at t exactly when (t - start) mod 24h < (end - start) mod 24h, also across midnight. |
| `Runner.SwapPartitionsTheDay` | `internal/maintenance/model.go:238-253` | A window and its swap partition the day; an empty window is never open. |
| `Runner.ParseTimeReadsClocks` | `internal/config/maintenance.go:252-261` | Exactly the times of day written as HH:MM parse, each to its hours and minutes. |
| `Runner.Normalized` | `internal/maintenance/model.go:195-201` | An execution with an error is never recorded as a success, and otherwise its own result is, or success if it left none. |
| `Runner.RunDetailed` | `internal/maintenance/model.go:124-203` | A refused invocation leaves no trace; any other is recorded at most once, under a listed name, with the result of its gates or of its execution; it executes exactly past every gate with a free lock, which is given back. The error is the operation's own whatever the record and the notifier did, and the notifier is told only of a written record. |
| `Runner.RecordHidesText` | `internal/maintenance/model.go:228-234` | Two executions whose errors carry the same code and message, or none, leave the same record whatever their texts are. |
| `Runner.ConciseIsAStretch` | `internal/maintenance/history.go:202-214` | A recorded message is a stretch of the original of at most 500 characters, with control characters blanked. |
| `Runner.Finish` | `internal/maintenance/model.go:154-180` | The record is stamped, appended, and only then notified. |
| `Invocations.OneExecutesAtATime` | `internal/maintenance/model.go:187-203` | In every interleaving of processes at most one invocation of a job is inside the executor. |
| `Invocations.ExecutedInsideTheWindow` | `internal/maintenance/model.go:124-203` | Each invocation executes at most once and is recorded at most once; it executes only with the job enabled, and every scheduled one only inside the window's arc; others too unless told to ignore it. |
| `Invocations.RefusedLeavesNoTrace` | `internal/maintenance/model.go:141-147` | An invocation with contradictory options, a scheduled one told to ignore the window among them, is never executed or recorded. |
| `Invocations.SettledResultStays` | `internal/maintenance/model.go:154-180` | Once settled, a result survives recording, notification and every other invocation. |
| `Invocations.ErrorIsNoSuccess` | `internal/maintenance/model.go:195-203` | What returned with an error is never settled as a success in any later state. |
| `Invocations.DeathFreesTheLock` | `internal/maintenance/model.go:187-194` | A process may die at any point before its end, and then holds the lock no longer. |
| `Invocations.TurnedAwayByAnother` | `internal/maintenance/model.go:187-194` | An invocation turned away as already running met another one holding the lock. |
| `Reconcile.Changes` | `internal/maintenance/launchd.go:402-434` | Exactly the installs, updates and removals that bring the directory to the desired artifacts, each once, in the scheduler's order. |
| `Reconcile.ChangesAreDetermined` | `internal/maintenance/launchd.go:402-434` | The list of changes does not depend on map order. |
| `Reconcile.ChangesReconcile` | `internal/maintenance/launchd.go:332-351` | Removing the listed and writing the changed artifacts reconciles the directory. |
| `Reconcile.WritingAllReconciles` | `internal/maintenance/systemd.go:325-343` | So does writing every desired artifact and then removing the listed ones. |
| `Launchd.DesiredPlists` | `internal/maintenance/launchd.go:106-128` | Exactly the enabled jobs' plists under their own names, or a refusal of an unsafe identity, name, schedule, path or label. |
| `Launchd.RenderingsAreOwned` | `internal/maintenance/launchd.go:130-166` | Every rendering passes the ownership test. |
| `Launchd.RenderingsDescribe` | `internal/maintenance/launchd.go:130-227` | Every rendering, read by its keys, gives the job's label, the command line, the directory, and the schedule: every 3600 seconds, or at the hour and minute as written, on the named day counted from Sunday. |
| `Launchd.ForeignStays` | `internal/maintenance/launchd.go:402-456` | A file under another name, or without the marker, the label or this configuration, stays as it is, installing or uninstalling. |
| `Launchd.Launchd.Install` | `internal/maintenance/launchd.go:308-375` | A successful installation leaves desired artifacts as desired, no owned leftovers and all other files unchanged; each enabled job is loaded from a plist that reads as its label, command line, directory and times, and each disabled one is neither loaded nor there. A dry run changes nothing. When no command fails it succeeds exactly when everything can be rendered and nothing foreign is in the way. |
| `Launchd.Launchd.Uninstall` | `internal/maintenance/launchd.go:377-400` | Exactly the owned artifacts are removed and booted out, whenever no command fails. |
| `Launchd.InstalledOwnsExactlyDesired` | `internal/maintenance/launchd.go:436-456` | After an installation the owned artifacts are exactly the desired ones. |
| `Launchd.InstallThenAgainOrUninstall` | `internal/maintenance/launchd.go:308-456` | Installing again has nothing to change; uninstalling leaves only what was never owned or desired. |
| `Systemd.DesiredUnits` | `internal/maintenance/systemd.go:94-126` | Exactly the enabled jobs' services and timers, or a refusal. |
| `Systemd.ServicesDescribe` | `internal/maintenance/systemd.go:156-175` | A rendered service names the project's directory, and its ExecStart list, read by the rules of systemd.service(5), is the job's command line, the same as under launchd, where nothing in it reads as a variable and the executable is a path. |
| `Systemd.TimersDescribe` | `internal/maintenance/systemd.go:177-204` | A rendered timer starts that service and no other, at the times of the schedule as systemd.time(7) reads them. |
| `Systemd.SchedulersAgree` | `internal/maintenance/systemd.go:189-204` | Both schedulers run a job at the same times: a schedule has one reading. |
| `Systemd.ForeignStays` | `internal/maintenance/systemd.go:394-501` | A file without the managed header, or under a name of neither naming, or under an older name of another project, stays as it is, installing or uninstalling. |
| `Systemd.SystemdUser.Install` | `internal/maintenance/systemd.go:304-359` | A successful installation reconciles the unit directory; each enabled job has its timer enabled and two units that read as its command line, directory and times. When no command fails it succeeds exactly when everything can be rendered and no unit name is taken. |
| `Systemd.SystemdUser.Uninstall` | `internal/maintenance/systemd.go:361-392` | Exactly the owned units, older ones included, are disabled and removed, whenever no command fails. |
| `Systemd.InstalledOwnsExactlyDesired` | `internal/maintenance/systemd.go:431-501` | After an installation the owned units, those under older names included, are exactly the desired ones. |
| `Systemd.InstallThenAgainOrUninstall` | `internal/maintenance/systemd.go:304-449` | Installing again has nothing to change; uninstalling leaves only what was never owned or desired. |
| `Quote.ShellRoundTrip` | `internal/transport/quote.go:7-9` | The shell splits a space-joined list of quoted arguments back into exactly those arguments, for all strings (sections 2.2.1, 2.2.2 and 2.3 of IEEE Std 1003.1-2017, Shell Command Language). |
| `Quote.ReplacementsAreOnePass` | `internal/maintenance/systemd.go:215-217` | The three sequential replacements are one pass over the characters. |
| `Quote.ReadBackExactlyWhenPlain` | `internal/maintenance/systemd.go:156-175` | An ExecStart list of escaped arguments without control characters and dollar signs is read back as exactly those arguments if and only if the first is an absolute path or a plain file name and has no executable prefix: prefixes are read as such and are lost (systemd.service(5), Command Lines). |
| `Quote.ExecStartRoundTrip` | `internal/maintenance/systemd.go:156-175` | So it is for the scheduler's own list, whose first argument is an absolute path. |
| `Recipes.Resolve` | `internal/recipes/recipes.go:462-464` | Resolution succeeds exactly when every assignment names a declared parameter once, every parameter settles, and the secret file fits; then each parameter has the normal form of what is assigned to it or, failing that, of its default, and the secret file its path with forward slashes. |
| `Recipes.Reuse` | `internal/recipes/recipes.go:466-470` | So it is with earlier values, which stand where nothing is assigned and before any default. |
| `Recipes.ResolveFrom` | `internal/recipes/recipes.go:483-542` | The loops compute that resolution. |
| `Recipes.ResolvedMeans` | `internal/recipes/recipes.go:483-542` | The resolution, defined along the lists, is the one defined by what each assignment splits into at its first equals sign and by which value a parameter starts from. |
| `Recipes.NormalizeValue` | `internal/recipes/recipes.go:544-597` | The branches accept exactly the normalizable values, of each type, and give their normal form. |
| `Recipes.NormalizeIsIdempotent` | `internal/recipes/recipes.go:544-597` | A normalized value is its own normal form, through 64-bit parsing and printing, booleans, paths and patterns. |
| `Recipes.ReuseIsStable` | `internal/recipes/recipes.go:462-542` | Reusing a resolved input without new assignments gives the same input back, for every valid recipe. |
| `Decimals.ParseFormatted` | `internal/recipes/recipes.go:553-564` | Parsing a printed 64-bit integer gives it back. |
| `Upgrades.CompareVersion` | `internal/recipes/recipes.go:873-887` | The loop computes the part-by-part comparison. |
| `Upgrades.ComparesByPrecedence` | `internal/recipes/recipes.go:873-887` | The comparison is that of section 11 of Semantic Versioning 2.0.0 exactly when the versions are equal, or they differ somewhere within 64 bits and the first parts that do are ordered as the first parts that differ at all. |
| `Upgrades.ComparesSmallVersions` | `internal/recipes/recipes.go:873-887` | With every part below 2^63 it is the standard's. |
| `Upgrades.LargeVersionsTie` | `internal/recipes/recipes.go:873-887` | Major versions from 2^63 - 1 on all tie. |
| `Upgrades.LargeVersionsExist` | `internal/recipes/recipes.go:873-887` | Such versions exist, 2^63 - 1 and 2^63 among them. |
| `Upgrades.ValidateUpgrade` | `internal/recipes/write.go:163-192` | An upgrade is allowed exactly when recipe, source, undrifted text, newer version, declared contract and secrets all agree. |
| `Upgrades.SameServiceContract` | `internal/recipes/write.go:240-250` | The field-by-field comparison is equality of the compared fields. |
| `Upgrades.Project.Upgrade` | `internal/recipes/write.go:196-229` | The new source replaces the old one, or the old one is still there, in place or moved aside; its last copy goes only once the new source is in place. A success under the provenance the old source carries is a step of the runs below. |
| `Upgrades.UpgradesMoveForward` | `internal/recipes/write.go:163-229` | Along any run of successful upgrades versions strictly increase, the recipe, source, secrets and service contract stay the declared ones, and what is left has not drifted. |
| `StoragePaths.ValidateStorageResources` | `internal/config/config.go:458-498` | Accepted are exactly lists of valid resources in strictly increasing names with distinct mounts and filesystems and no nested mounts. |
| `StoragePaths.JoinedIsBelow` | `internal/config/config.go:524-543` | A resolved path is exactly the mount, a slash, and the declared path, and clean. |
| `StoragePaths.ResolvePath` | `internal/config/config.go:524-543` | The loop resolves a declaration as specified. |
| `StoragePaths.ResolvedApart` | `internal/config/config.go:458-543` | Paths resolved under two different resources are never equal and never nested. |
| `StoragePaths.ResolvedIsBackupPath` | `internal/config/config.go:566-584` | A resolved path passes the backup check unless it is the data root or lies inside it. |
| `StoragePaths.ByteSizeIsExact` | `internal/config/config.go:424-456` | A quantity, an amount directly followed by one of the eight units, is accepted exactly when its byte count is positive and fits 64 bits, and then it is that count. |
| `StoragePaths.UnitIsAPower` | `internal/config/config.go:433-451` | Units that end in iB count in powers of 1024, the others in powers of 1000, by the letter they start with. |
| `StoragePaths.OnlyQuantitiesParse` | `internal/config/config.go:421-432` | Nothing else is accepted. |

## Left out

- Shell scripts, probe parsing, install recipes, summaries, risk and blocked texts of the module planners: only change
  IDs, dependencies and the facts that select them are modelled; per-release repository tables enter as facts.
- Command-line commands, rendering, webhook HTTP, file permissions and ownership, and the libraries for JSON, TOML,
  YAML and XML.
- The inventory's printed TOML: its aliases and escapes do not round-trip, and nothing else depends on it.
- Deriving notification events from a finished operation, and the delivery history with its pruning and its file
  names.
- Which definition launchd has loaded: only file contents and loadedness are proved.
- Launchd.DesiredPlists: a plist is its sequence of markup pieces, a unit file its sequence of lines; that printing
  and substring search on the text agree with that is not modelled, and neither is the XML escape of single
  characters.
- Calendar validity of the timestamp inside a snapshot identifier: digits are checked, days and months are not.
- PlanBuild.Build: what a gate or a module finds out is an input, as are the texts of warnings.
- Systemd.DesiredUnits: units are sequences of line tokens, and errors of the job fingerprint are not modelled.
- Launchd.RenderingsAreOwned: ownership is membership of pieces, where the program searches the text.
- Quote.ReadBackExactlyWhenPlain: variables, specifiers other than the percent sign, and single quotes are not read.
- Repository.Stage.WriteArchive: parent folders are implied by the paths of files and have no entries of their own.
- Snapshot.Walk: entries are visited in any order, where the program goes by name; the outcome does not depend on it.
- Create.Create: a lock, streaming support, a responsive Docker and the helper image are one admission flag;
  concurrency of the pipe between target and stage is one delivery.
- Restore.ApplyRestore: validity and fingerprint of the reviewed plan, identity and configuration checks are part of
  one admission flag; building a restore plan is not modelled.
- Runner.RunDetailed: characters stand for bytes, so blanks outside ASCII are not trimmed and none is cut in half.
- Recipes.Resolve: regular expressions are the set of strings they accept; loading and rendering of recipes, the
  catalog's queries, initialization and configuration edits are not modelled.
- Upgrades.Project.Upgrade: symbolic links are one containment flag.
- The remaining configuration schema, saved plans, targets and transports: deployments and storage assessments are
  inputs.
