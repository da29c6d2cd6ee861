# Forkspacer in Dafny

Forkspacer is a Kubernetes operator. A *workspace* groups *modules*; a module is usually a Helm
release that the operator installs, puts to sleep (scales to zero, remembering the replica counts),
wakes up and removes. A workspace can be hibernated by hand or on a schedule, and forked: its modules
are copied into a new workspace, together with their data if asked for.

This project models the operator's state machines and its pure parts, and proves what they guarantee
over whole runs, with the environment acting between any two API calls and any call failing.

| file | models |
|---|---|
| `Common.dfy` | options, results, listings, and how an API write ends: acknowledged, landed but reported as failed, or rejected |
| `HelmScaling.dfy` | scaling a release down and back, and the replica history (`pkg/manager/helm.go`, `pkg/services/helm.go`) |
| `ModuleProtocol.dfy` | a module's life as a transition system, cut at every API write and manager call |
| `ModuleRuns.dfy`, `ModuleFate.dfy`, `ModuleProgress.dfy` | what holds in every run of that system, what can still become of a module, and what it achieves when nothing fails |
| `ReplicaRuns.dfy` | what waking up does to replica counts, over whole runs |
| `ModuleController.dfy` | the module reconciler as code, with crashes at any API call, proved to produce only such runs |
| `ModuleSpecs.dfy`, `ModuleStore.dfy` | module specifications; the hibernation fan-out and the planning of a fork over all modules |
| `Forking.dfy` | the goroutines that create the copies of a fork |
| `CronIndex.dfy` | the sleep and wake-up cron managers with their lock |
| `WorkspaceProtocol.dfy`, `WorkspaceSteps.dfy`, `WorkspaceRuns.dfy`, `WorkspaceForks.dfy`, `WorkspaceFate.dfy` | the same layers for a workspace; forks over whole runs |
| `WorkspaceController.dfy` | the workspace reconciler as code, proved to produce only such runs |
| `DataMigration.dfy`, `MigrationReach.dfy`, `MigrationController.dfy` | quiescing two modules, copying, restoring their flags; which migrations come about; the goroutine as code |
| `TarPipe.dfy` | the pipe between two exec calls that copies a volume |
| `ObjectMigration.dfy` | copying Secrets and ConfigMaps against a fallible store, and the indexed loops |
| `Rendering.dfy`, `HelmValues.dfy` | templates in JSON trees; layered values |
| `ConfigValidation.dfy`, `Admission.dfy` | validated configuration; defaulting and immutable fields |

How the layers fit: a *protocol* file defines `Next` (one step) and `Exec` (a whole run) as functions of
the state and of the choices the environment makes. A *runs* file proves an inductive invariant and
derives the theorems for all runs. A *controller* file is the imperative code; its `Valid()` says that
its state is `Exec` of the steps it logged, so every theorem about runs applies to it.

## Assumptions

- At most one reconcile per object is in flight, and its reads are fresh (no stale informer cache).
- A read followed by a conditional write is one step: the API server rejects a write based on an old
  version and the retry reads again.
- The delete finalizer is the only finalizer; nobody but the operator edits finalizers, status or the
  metadata annotation, and the metadata survives its encoding.
- Nobody else scales a release's own workloads between the announcement of its sleep and its being
  ready again; Kubernetes' own controllers are not modelled.
- Phases are those the resource definitions allow. A workspace's type and origin cannot be edited.
- The hibernation fan-out, the check before a fork and module listing see no other writer of modules while
  they run. The workspace read of a module operation, the building of its manager and the annotation patch
  that goes with it are one step; nothing between them reads what the environment may change. Everything
  else may happen between any two calls.
- In the migration theorems nobody else edits the flags or requests the deletion of the two modules.
- An exec call returns once its side of the pipe is closed.
- Helm's table merge is a deep merge without nulls in which the first argument wins.

## Where code and comments disagree

The model follows the code.

- `internal/controller/module_controller.go:181-188` announces a retry when the workspace is not ready.
  The phase is already *installing*, so no later reconcile installs the module
  (`ModuleFate.NotReadyNeverInstalls`); it can only become failed after five minutes.
- `internal/controller/workspace_controller.go:725` guards the resume patch with the wrong sign, so
  resuming a workspace wakes no module (`WorkspaceFate.HibernateResume`, `WorkspaceFate.FlagsNeverCleared`).
- `internal/controller/workspace_controller.go:176` and `:245` remove the old cron entry through a
  method that takes the lock already held (`CronIndex.ReplaceBlocksIff`). The repaired variant is
  `CronIndex.CronManager.AddRepaired`.
- `internal/controller/workspace_controller.go:93-100` drops the requeue that a refused fork asks for
  (`WorkspaceForks.FailedForkNeverRetried`).
- `internal/controller/module_operations.go:150-163` accepts a failed workspace for uninstallation; no
  failed workspace is ever ready, so this arm is dead unless the workspace is being deleted
  (`WorkspaceRuns.GatesOnlyReadPhases`).
- `internal/webhook/v1/module_webhook.go:77-79` describes a twelve-character name beginning with *m*;
  the code generates the namespace, a hyphen and eleven digits (`Admission.GeneratedNameShape`).
- A migration is started only for a module with volumes, so listed Secrets and ConfigMaps alone are
  never copied (`MigrationReach.CopiesIff`).
- Multiple-choice configuration can never be given in JSON, and its bounds are never checked
  (`ConfigValidation.JsonChoicesRejected`, `ConfigValidation.ChoiceBoundsIgnored`).

## Model

| member | source | states |
|---|---|---|
| HelmScaling.HelmService.List | pkg/services/helm.go:338-352 | listing gives exactly the workloads of one kind in the release's namespace that carry its name as the instance label, each once |
| HelmScaling.HelmService.Scale | pkg/services/helm.go:338-387 | whatever fails on the way, exactly a set of own workloads is at the target, the recorded counts are true old counts, and on success they are all of them |
| HelmScaling.HelmService.ScaleBack | pkg/services/helm.go:389-407 | exactly a prefix of the recorded counts has been written back, all of them on success |
| HelmScaling.HelmManager.Sleep | pkg/manager/helm.go:307-338 | satisfies SleepRel on every exit: only own workloads go to zero; on success all do and the saved history is exactly their old counts, unless there were none |
| HelmScaling.HelmManager.Resume | pkg/manager/helm.go:340-362 | satisfies ResumeRel on every exit: only recorded workloads change; success means every recorded count was written back |
| HelmScaling.SleepThenResume | pkg/manager/helm.go:307-362 | after a successful sleep every workload in the release's namespace with its instance label is at zero, after a successful resume it has its old count again, and every other workload is untouched throughout |
| HelmScaling.SleepTouches | pkg/services/helm.go:338-387 | however a sleep ends, workloads of another namespace or another release are as before, and own ones are as before or at zero |
| HelmScaling.ResumeTouches | pkg/services/helm.go:389-407 | however a resume ends, only workloads the history names by kind, namespace and name are touched, and of these only the replica field |
| HelmScaling.OwnIs | pkg/services/helm.go:338-387 | which workloads are a release's own, and that an unset replica field counts as zero |
| ModuleRuns.LanguageIsAutomaton | internal/controller/module_controller.go:75-113 | the call language [Install] (Sleep Resume)* [Sleep] [Uninstall] is exactly what a five-state automaton accepts |
| ModuleRuns.StepKeepsInv | internal/controller/module_controller.go:154-275 | every step of the controller and of the environment keeps the module invariant |
| ModuleRuns.ReachableInv | internal/controller/module_controller.go:62-122 | the invariant holds in every state of every run of a fresh module |
| ModuleRuns.CallsInLanguage | internal/controller/module_controller.go:75-250 | in every run, with failures, crashes and edits anywhere, the manager calls lie in that language |
| ModuleRuns.CallOrder | internal/controller/module_deletion.go:33-69 | so Install is first and alone, Uninstall last and alone, Resume directly follows a Sleep, and a Sleep is never followed by another |
| ModuleRuns.InstallationFirst | internal/controller/module_operations.go:73-132 | an adopted module is never installed or uninstalled; any other is installed before its first sleep |
| ReplicaRuns.ReplicasReplayed | pkg/manager/helm.go:340-362 | in every run, whatever failed before, a Helm module that becomes ready after sleeping has exactly the workloads it was put to sleep with, each at the count the stored history gives it and at zero if the history does not name it |
| ReplicaRuns.ReplicasRestoredIff | internal/controller/module_controller.go:212-250 | hence each workload is back at the count it had when the matching sleep began if and only if the stored history agrees with those counts |
| ReplicaRuns.ReplicasRestored | internal/controller/module_operations.go:238-258 | in particular whenever the annotation patch after that sleep landed |
| ReplicaRuns.SavedAtSleep | internal/controller/module_operations.go:238-258 | the counts these theorems speak of are those at the last Sleep call, and nothing else changes them |
| ReplicaRuns.LostPatchRestoresOldCounts | internal/controller/module_operations.go:246-253 | for every new module with workloads and every rescaling of these there is a run, with that patch rejected, that ends ready with the counts of the previous sleep |
| ModuleFate.DeletionCompletes | internal/controller/module_deletion.go:36-68 | a deleting module that is ready, failed or asleep is gone after one reconcile with acknowledged writes, whether or not uninstalling works |
| ModuleFate.UninstallsIff | internal/controller/module_operations.go:125-195 | in that reconcile the manager's Uninstall is called if and only if the release was not adopted, the manager was built, and the workspace was read and is being deleted or is ready in one of three phases |
| ModuleFate.DeletionStuck | internal/controller/module_deletion.go:36-40 | a deleting idle module in any other phase never changes again, in any run |
| ModuleFate.DeletionIff | internal/controller/module_deletion.go:33-69 | the deletion of an idle module can complete if and only if its phase is ready, failed or asleep |
| ModuleFate.UninstallingNeverExpires | internal/controller/module_controller.go:89-113 | uninstalling implies a deletion timestamp, and no step of any run takes an uninstalling module to another phase |
| ModuleFate.NotReadyNeverInstalls | internal/controller/module_controller.go:176-189 | once an installation is refused because the workspace is not ready, no run ever installs the module |
| ModuleFate.NotReadyOnlyWaits | internal/controller/module_controller.go:89-113 | unless deleted, it stays installing or, once more than five minutes have passed, becomes failed |
| ModuleFate.WaitingFails | internal/controller/module_controller.go:92-111 | and the first later reconcile whose write lands does make it failed |
| ModuleFate.ForgottenNeverWakes | pkg/manager/helm.go:340-344 | a Helm module asleep without a stored history is never ready again, in any run |
| ModuleFate.EmptyReleaseForgotten | pkg/manager/helm.go:307-338 | putting a release without workloads to sleep leads exactly there |
| ReplicaRuns.WakesIff | pkg/manager/helm.go:340-362 | a sleeping Helm module can become ready in some run if and only if a history is stored |
| ModuleFate.AsleepStaysAsleep | internal/controller/module_controller.go:212-250 | a flagged module for which no wake-up was decided stays asleep, with no reconcile at work, in every run without edits |
| ModuleFate.StaysAsleepIff | internal/controller/module_controller.go:232-247 | a module seen asleep and flagged stays so in all such runs if and only if no reconcile is in flight |
| ModuleProgress.Installs | internal/controller/module_controller.go:154-210 | with acknowledged writes and a ready workspace the first reconcile installs a new module: ready or failed as the manager answers, finalizer in place |
| ModuleProgress.CallsIff | internal/controller/module_operations.go:47-216 | for each of the four operations, exactly when the manager is called |
| ModuleProgress.Announces | internal/controller/module_controller.go:216-275 | an acknowledged announcement puts the module in the operation's transitional phase; any other outcome ends the reconcile |
| ModuleProgress.Records | internal/controller/module_operations.go:244-258 | the metadata patch is stored if it lands; then a failed sleep or resume ends the reconcile in its transitional phase and everything else is settled |
| ModuleProgress.Settles | internal/controller/module_controller.go:204-247 | the final phase of each operation, and that a freshly installed flagged module goes to sleep and a freshly sleeping unflagged one wakes in the same reconcile |
| ModuleProgress.RestsIff | internal/controller/module_controller.go:83-87 | a reconcile of a settled module does nothing exactly if it is ready and unflagged, asleep and flagged, or failed |
| ModuleProgress.Adopts | internal/controller/module_operations.go:73-78 | a module for an existing release becomes ready if the release is found and the patch acknowledged, and failed otherwise, with no manager call and no change to the cluster |
| ModuleProgress.InstallationFails | internal/controller/module_controller.go:191-202 | a new module whose workspace cannot be read, or whose manager cannot be built, is failed after its first reconcile |
| ModuleProgress.ExpiresIff | internal/controller/module_controller.go:89-113 | a module left installing, sleeping or resuming becomes failed in its next reconcile if and only if its last activity is more than five minutes ago |
| ModuleProgress.Sleeps | internal/controller/module_controller.go:215-230 | one reconcile puts a ready, flagged module to sleep and stores its history |
| ModuleProgress.Wakes | internal/controller/module_controller.go:232-247 | one reconcile wakes a sleeping module whose flag was cleared |
| ModuleProgress.RoundTrip | internal/controller/module_controller.go:212-250 | both together, through the stored annotation, restore every replica count and touch no other release |
| ModuleController.ModuleReconciler.SetPhase | internal/controller/module_controller.go:252-275 | the write is the protocol's step; success leaves the phase and a fresh copy |
| ModuleController.ModuleReconciler.AddFinalizer | internal/controller/module_controller.go:157-174 | continues exactly if the finalizer is acknowledged or was there |
| ModuleController.ModuleReconciler.RemoveFinalizer | internal/controller/module_deletion.go:54-68 | ends the reconcile; the object goes with its finalizer |
| ModuleController.ModuleReconciler.NewManager | internal/controller/module_controller.go:277-350 | builds the manager behind the gate and patches the annotation, a failure of which is silent |
| ModuleController.ModuleReconciler.InstallModule | internal/controller/module_operations.go:47-123 | its three results are exactly the three protocol exits; a not-ready workspace means no manager call |
| ModuleController.ModuleReconciler.UninstallModule | internal/controller/module_operations.go:125-195 | whatever happens, the finalizer is removed next |
| ModuleController.ModuleReconciler.SleepModule | internal/controller/module_operations.go:197-260 | is a protocol run from the gate to the final write or to an error |
| ModuleController.ModuleReconciler.ResumeModule | internal/controller/module_operations.go:262-325 | is a protocol run from the gate to the final write or to an error |
| ModuleController.ModuleReconciler.HandleHibernation | internal/controller/module_controller.go:212-250 | sleeps and then, on the fresh copy, may resume at once; always a protocol run |
| ModuleController.ModuleReconciler.HandleEmptyPhase | internal/controller/module_controller.go:154-210 | is a protocol run; the five-second requeue means nothing was called |
| ModuleController.ModuleReconciler.HandleDeletion | internal/controller/module_deletion.go:33-69 | is a protocol run; outside the three phases it does nothing |
| ModuleController.ModuleReconciler.Reconcile | internal/controller/module_controller.go:62-122 | every execution, for Helm and custom modules and with a crash possible at any API call, is a run of the protocol, so the manager calls so far lie in the language |
| ModuleController.ModuleReconciler.Live | internal/controller/module_controller.go:62-152 | after any number of reconciles, each possibly cut off by a crash, restarts and outside actions: calls in the language, adopted modules untouched, uninstalling only while being deleted |
| ModuleStore.Store.List | internal/controller/workspace_controller.go:737-753 | lists exactly the modules whose workspace reference is the given one, each once |
| ModuleStore.Store.SleepModules | internal/controller/workspace_controller.go:687-710 | flags a set of related modules and frames all others; with no failure it sets the flag of exactly the modules that refer to the workspace and changes nothing else |
| ModuleStore.Store.ResumeModules | internal/controller/workspace_controller.go:712-735 | changes no module at all |
| ModuleStore.Store.ResumeModulesRepaired | internal/controller/workspace_controller.go:712-735 | with the guard corrected, clears the flag of exactly the related modules |
| ModuleStore.Store.Fork | internal/controller/workspace_fork.go:16-61 | drafts one copy for each source module if all are ready or asleep, and nothing otherwise; touches no module |
| Forking.SpawnedFits | internal/controller/workspace_fork.go:41-74 | a goroutine's create, landed or not, keeps every source module exactly one of drafted, copied once or dropped |
| Forking.AbandonedFits | internal/controller/workspace_fork.go:41-74 | and so does a crash, which drops all drafts |
| Forking.DraftIs | internal/controller/workspace_fork.go:42-65 | a draft targets the destination and keeps the source's configuration, flag and Helm section, without the existing release |
| ModuleStore.HibernateThenResume | internal/controller/workspace_controller.go:687-735 | hibernating and resuming as written restores the modules iff all were hibernated before; corrected, iff none was |
| ModuleStore.SetFlagsFrame | internal/controller/workspace_controller.go:699-707 | the fan-out touches nothing but the flag of related modules |
| CronIndex.CronManager.Add | internal/controller/workspace_controller.go:158-212 | does what After says: replace gets stuck on the held lock; keeps the table in agreement with the scheduler |
| CronIndex.CronManager.Remove | internal/controller/workspace_controller.go:214-225 | removes the entry and its table row, or waits for ever on a held lock; keeps the agreement |
| CronIndex.CronManager.AddRepaired | internal/controller/workspace_controller.go:227-281 | the replacement as meant: the old entry goes under the lock already held |
| CronIndex.OthersFrame | internal/controller/workspace_controller.go:158-225 | an operation for one workspace leaves the entries of all others alone |
| CronIndex.IndexMatchesScheduler | internal/controller/workspace_controller.go:158-225 | after any sequence of operations the table is one-to-one and its image is exactly the live entries |
| CronIndex.AddedFiresOnTime | internal/controller/workspace_controller.go:162-211 | a completed successful add leaves an entry whose next firing equals the spec's |
| CronIndex.ScheduleTakenIff | internal/controller/workspace_controller.go:169-174 | but the stored schedule is the new one iff there was none or it was this one |
| CronIndex.ReplaceBlocksIff | internal/controller/workspace_controller.go:162-177 | on a free lock, an overwriting add blocks if and only if the next firings differ |
| CronIndex.AddFailsIff | internal/controller/workspace_controller.go:162-211 | on a free lock an add fails, changing nothing, iff the schedule does not parse or an entry may not be overwritten; a completed one adds exactly this workspace or keeps its entry |
| CronIndex.BlockedForever | internal/controller/workspace_controller.go:159-176 | after that, every operation of any workspace on this index blocks and nothing changes |
| CronIndex.RemovedStaysOut | internal/controller/workspace_controller.go:214-225 | a removed workspace has no entry until it is added again |
| CronIndex.RepairedReplaces | internal/controller/workspace_controller.go:227-281 | the repaired add differs only where the written one gets stuck, frees the lock and fires on time |
| CronIndex.RepairedFrame | internal/controller/workspace_controller.go:227-281 | and leaves every other workspace's entry alone |
| WorkspaceRuns.StepKeepsInv | internal/controller/workspace_controller.go:76-132 | every step of the workspace protocol keeps the invariant |
| WorkspaceRuns.StatusAlwaysFits | internal/controller/workspace_controller.go:755-845 | in every run hibernatedAt is set iff the phase is hibernated, and ready iff the phase is ready or hibernated |
| WorkspaceRuns.GatesOnlyReadPhases | internal/controller/module_operations.go:150-163 | so the failed arm of the uninstall gate is dead for a workspace not being deleted, and the ready flag adds nothing at any gate |
| WorkspaceRuns.ForkAtMostOnce | internal/controller/workspace_controller.go:395-436 | in every run a workspace is forked at most once |
| WorkspaceRuns.NoSecondChance | internal/controller/workspace_controller.go:93-100 | once a workspace has a phase and is past the fork, no run ever tries it |
| WorkspaceForks.FailedForkNeverRetried | internal/controller/workspace_controller.go:428-435 | in every run a refused fork leaves the workspace ready, is never retried, and no copy is ever created |
| WorkspaceForks.ForkConserves | internal/controller/workspace_fork.go:30-74 | in every run, at every moment, each module of the forked workspace is exactly one of drafted, copied once or dropped, and all were ready or asleep when listed |
| WorkspaceForks.ForkCreates | internal/controller/workspace_fork.go:41-74 | in every run a new module (outside changes apart) is a goroutine's copy of a ready or sleeping source module, for this workspace, with its configuration, flag and release and no existing release; no other module changes |
| WorkspaceForks.NothingDropped | internal/controller/workspace_fork.go:67-74 | a copy is dropped only by a failed create or a crash |
| WorkspaceForks.ForkCompletes | internal/controller/workspace_fork.go:41-74 | so with a reliable API server and no crash every source module is copied once no goroutine is left |
| WorkspaceForks.ReliableForkIff | internal/controller/workspace_fork.go:30-39 | without API failures a fork goes through if and only if every module that refers to the source workspace is ready or asleep |
| WorkspaceRuns.LostChance | internal/controller/workspace_controller.go:390-397 | a workspace whose first status write is not acknowledged, or that starts hibernated, is never forked |
| WorkspaceRuns.DeletionOrder | internal/controller/workspace_controller.go:442-530 | in every run the teardown directly follows one verdict per listed module, in order, and the finalizer goes last |
| WorkspaceRuns.ListedIs | internal/controller/workspace_controller.go:451-454 | the listing before a deletion names exactly the modules that refer to the workspace |
| WorkspaceRuns.VerdictsTrue | internal/controller/workspace_controller.go:461-496 | a verdict is a module seen missing, sixty seconds waited, or a failed request |
| WorkspaceRuns.GoneHasNoCron | internal/controller/workspace_controller.go:456-457 | in every run, a workspace that is gone has no cron entry |
| WorkspaceRuns.NoCronAfterDeletion | internal/controller/workspace_controller.go:442-530 | and none ever again |
| WorkspaceFate.FirstReadyIs | internal/controller/workspace_controller.go:296-352 | nothing failing, the first reconcile makes a workspace ready, a managed one after its provisioning and even if flagged hibernated, and goes on to look up the source if there is one |
| WorkspaceFate.FirstReconcileForks | internal/controller/workspace_controller.go:354-436 | if the source is found, it does try the fork and goes on to its schedules whatever the answer |
| WorkspaceFate.StartsHibernated | internal/controller/workspace_controller.go:389-394 | a workspace that is not managed and starts flagged becomes hibernated without touching its modules |
| WorkspaceFate.FailuresEnd | internal/controller/workspace_controller.go:332-375 | a failed provisioning, an unreadable source and a failed fan-out end the reconcile with a failed workspace and no module touched |
| WorkspaceFate.DormantForever | internal/controller/workspace_controller.go:118-123 | a failed workspace stays so until deletion is requested; one left installing stays so for ever |
| WorkspaceFate.StuckForever | internal/controller/workspace_controller.go:583-623 | a reconcile waiting for a lock freezes the workspace's status until the operator restarts |
| WorkspaceFate.SchedulingStuckIff | internal/controller/workspace_controller.go:158-177 | registering the schedule gets stuck iff the lock is held or the entry fires at another time |
| WorkspaceFate.SchedulesRegistered | internal/controller/workspace_controller.go:583-623 | what the handler leaves if it does not hang: no change without a section; no entry when switched off; when on, an entry that fires by the schedule in the sleep index, and in the wake index one that fires by the wake schedule, or none if there is none |
| WorkspaceFate.NoPassNeeded | internal/controller/workspace_controller.go:532-581 | a workspace that is as its flag says goes straight on to its schedules |
| WorkspaceFate.DeletionCompletes | internal/controller/workspace_controller.go:442-530 | with free locks, a deleting workspace that is ready, hibernated or failed is gone after one reconcile with acknowledged writes, for any verdicts and any teardown result |
| WorkspaceFate.DeletionIff | internal/controller/workspace_controller.go:445-457 | without a restart, deletion of an idle workspace can complete iff its phase is one of those three and both locks are free |
| WorkspaceFate.HibernateResume | internal/controller/workspace_controller.go:532-581 | as a run: hibernating flags exactly the workspace's modules; if the schedules do not hang the reconcile, clearing the workspace's flag and reconciling again ends with a ready workspace and all its modules still flagged |
| WorkspaceFate.FlagsNeverCleared | internal/controller/workspace_controller.go:687-735 | in every run in which nobody else changes modules, a flagged module stays flagged |
| WorkspaceFate.ReliableFanOut | internal/controller/workspace_controller.go:687-710 | without API failures every hibernation pass flags exactly the workspace's modules |
| WorkspaceController.WorkspaceReconciler.SetStatus | internal/controller/workspace_controller.go:755-845 | each status writer leaves fields that fit the phase, and is a protocol step |
| WorkspaceController.WorkspaceReconciler.HandleEmptyPhase | internal/controller/workspace_controller.go:296-440 | is a protocol run through finalizer, provisioning, first status and fork |
| WorkspaceController.WorkspaceReconciler.HandleHibernation | internal/controller/workspace_controller.go:532-581 | is a protocol run through the fan-out and its status write |
| WorkspaceController.WorkspaceReconciler.HandleAutoHibernation | internal/controller/workspace_controller.go:583-623 | uses the two indexes as the copy says and hangs exactly when one of them blocks |
| WorkspaceController.WorkspaceReconciler.DeleteModule | internal/controller/workspace_controller.go:461-496 | the polling loop ends with a true verdict: missing, or sixty seconds passed |
| WorkspaceController.WorkspaceReconciler.HandleDeletion | internal/controller/workspace_controller.go:442-530 | is a protocol run; outside the three phases it does nothing |
| WorkspaceController.WorkspaceReconciler.ForkWorkspace | internal/controller/workspace_fork.go:16-61 | the fork attempt, of which there is at most one in any execution; it only starts goroutines |
| WorkspaceController.WorkspaceReconciler.RunGoroutine | internal/controller/workspace_fork.go:43-74 | one goroutine's create, at any later time, is a step of the protocol |
| WorkspaceController.WorkspaceReconciler.Reconcile | internal/controller/workspace_controller.go:76-132 | every execution is a run of the protocol; the status fits, at most one fork, orderly deletion, no cron entry once gone |
| WorkspaceController.WorkspaceReconciler.Live | internal/controller/workspace_controller.go:76-156 | the same guarantees after any number of reconciles, restarts and outside actions; a hanging reconcile ends only with a restart |
| DataMigration.MoveKeepsInv | internal/controller/workspace_fork.go:168-214 | every move of the goroutine and of the two modules keeps the migration invariant |
| DataMigration.QuietWhileCopying | internal/controller/workspace_fork.go:168-214 | copying starts only after both modules were seen asleep, and both stay asleep and idle while it goes on, unless a wake-up had been decided before the flag was set |
| DataMigration.FlagsRestored | internal/controller/workspace_fork.go:173-195 | how both flags end for every outcome: restored and cleared after copying if the patches land; left set on a source that did not fall asleep; untouched source if the new module did not |
| MigrationReach.WakesWhileCopying | internal/controller/workspace_controller.go:641-675 | the exception is real: from every fork at rest whose source is asleep with its flag just cleared, a run without outside edits copies while the source, seen asleep and flagged, wakes up |
| MigrationReach.SomeFork | internal/controller/workspace_fork.go:140-215 | and such forks exist |
| DataMigration.QuietIff | internal/controller/workspace_fork.go:197-212 | copying that begins on two sleeping modules finds both asleep throughout every unedited continuation iff no reconcile of either is in flight |
| MigrationReach.NothingToMigrate | internal/controller/workspace_fork.go:147-166 | if data is not asked for, or the source is no Helm module or lists no volume, no run copies anything |
| DataMigration.SkippedOnlyIf | internal/controller/workspace_fork.go:123-166 | and only then is a migration skipped |
| MigrationReach.CopiesIff | internal/controller/workspace_fork.go:123-166 | from every fork at rest some run copies if and only if data is asked for and the source is a Helm module with a volume |
| DataMigration.WaitsEnd | internal/controller/workspace_fork.go:78-108 | in every run the goroutine makes at most 550 moves apart from copying: each of its three waits ends after at most 180 polls |
| DataMigration.WaitsFor180 | internal/controller/workspace_controller.go:641-650 | failed reads do not end a wait before its hundred and eightieth round |
| DataMigration.PollVerdict | internal/controller/workspace_controller.go:652-674 | for each of the eight phases whether a read ends the wait, gives it up or goes on waiting |
| DataMigration.ExpectVerdict | internal/controller/workspace_fork.go:90-107 | the same for the new module, which only has to be ready or asleep |
| DataMigration.LastTest | internal/controller/workspace_controller.go:677-684 | after the last round the last copy decides, even if no read succeeded |
| MigrationController.Migrator.HibernateModuleAndWait | internal/controller/workspace_controller.go:626-685 | the loop of 180 polls is a run of the migration protocol and answers what the last copy says |
| MigrationController.Migrator.CopyStep | internal/controller/workspace_fork.go:197-212 | whenever an object is copied both modules are asleep and idle, unless a wake-up had been decided |
| MigrationController.Migrator.Await | internal/controller/workspace_fork.go:76-121 | the loop of 180 polls for the new module is a run of the migration protocol and answers what the last copy says |
| MigrationController.Migrator.MigrateModuleData | internal/controller/workspace_fork.go:123-215 | the goroutine with its deferred patches: flags restored after copying, source left flagged after a failed wait, nothing copied on any other exit |
| TarPipe.NilMeansCopied | pkg/services/pvc_migration.go:226-277 | the call returns nil iff both execs did, and then the destination has read exactly the source's stream if the source exec reports failed writes |
| TarPipe.OnlyPrefixesAreRead | pkg/services/pvc_migration.go:226-265 | at every moment the destination has read a prefix of the stream |
| TarPipe.CopyCanSucceed | pkg/services/pvc_migration.go:226-277 | for every stream there is a run that returns nil after the destination has read the whole stream |
| TarPipe.CopyCompleteIff | pkg/services/pvc_migration.go:226-277 | a nil result means a complete copy in every run if and only if the source exec reports failed writes or the stream is empty |
| TarPipe.HiddenWriteErrorTruncates | pkg/services/pvc_migration.go:239-246 | otherwise, for every proper prefix of the stream, a run returns nil after exactly that prefix was read |
| TarPipe.RunsAreBounded | pkg/services/pvc_migration.go:226-277 | every run is finite, with a bound linear in the stream |
| TarPipe.NoDeadlock | pkg/services/pvc_migration.go:228-277 | with buffered channels no reachable state is deadlocked |
| TarPipe.UnbufferedDeadlockIff | pkg/services/pvc_migration.go:228-229 | with unbuffered channels a deadlock is reachable iff the stream is not empty |
| ObjectMigration.UpdateHelmAnnotations | pkg/services/secret_migration.go:60-75 | the copied annotations are the original ones with the release name replaced if there is one and a new name is given |
| ObjectMigration.Migrate | pkg/services/secret_migration.go:52-155 | the only possible outcomes: unchanged, absent (immutable branch only), or exactly the migrated object; nothing else is touched, also when both clusters are one |
| ObjectMigration.MigrateSecret | pkg/services/secret_migration.go:24-156 | the same for Secrets, renaming the release |
| ObjectMigration.MigrateConfigMap | pkg/services/configmap_migration.go:24-138 | the same for ConfigMaps, annotations kept |
| ObjectMigration.SuccessCopies | pkg/services/secret_migration.go:60-152 | success means equal payload, with an existing destination's labels and immutable flag kept, exactly the release-name annotation renamed if a name is given, and every other object as before |
| ObjectMigration.FailureLeaves | pkg/services/secret_migration.go:104-142 | failure means unchanged, or absent only if it was immutable, when failed calls have no effect |
| ObjectMigration.MigratedTwice | pkg/services/secret_migration.go:144-149 | migrating again changes nothing |
| ObjectMigration.MigrateAll | internal/controller/workspace_fork.go:262-307 | the indexed loop panics iff the destination list is shorter; with no failure every destination gets its source's payload; other objects are untouched |
| Rendering.RenderAt | api/v1/module_types.go:828-882 | rendering commutes with taking the subtree at any path |
| Rendering.ShapePreserved | api/v1/module_types.go:830-849 | keys, lengths and everything that is not a template are preserved at every depth |
| Rendering.TemplateReplaced | api/v1/module_types.go:850-877 | a template at any depth becomes what executing it there reads as in JSON, else its text |
| Rendering.TextRendered | api/v1/module_types.go:850-878 | a text at any depth is executed if and only if two opening braces stand side by side in it and two closing ones do; otherwise it stays as it is |
| Rendering.RenderFree | api/v1/module_types.go:850-881 | rendering is the identity on trees without templates |
| Rendering.RenderFailsIff | api/v1/module_types.go:832-867 | rendering fails iff some template in the tree fails |
| Rendering.RenderedLength | api/v1/module_types.go:794-826 | marshalling, rendering and decoding keep the length of each migration list |
| Rendering.ForkListsAlign | internal/controller/workspace_fork.go:42-61 | so a fork whose lists are not edited has rendered lists as long as its source's |
| HelmValues.CoalesceAt | pkg/services/helm.go:608-614 | at every path the first table decides if it settles the path, else the second |
| HelmValues.LastLayerWins | pkg/services/helm.go:608-616 | at every path the merge shows what the last layer that settles it shows |
| HelmValues.ViewsDetermine | pkg/services/helm.go:608-616 | and that determines the merged tree |
| HelmValues.AdoptionPrecedence | internal/controller/module_operations.go:348-379 | after adoption user values beat the release's, which beat the chart's, at every path |
| HelmValues.AssociativeIff | pkg/services/helm.go:611-613 | the two ways of nesting three layers agree at a path iff the middle one does not bar it or the last has nothing there |
| HelmValues.NotAssociative | pkg/services/helm.go:611-613 | three layers on which they differ |
| HelmValues.LaterEntryWins | pkg/services/helm.go:560-606 | at every path of the merged values the last entry that is not silent decides, and within it the inline values, or else the text under the key of the ConfigMap with that namespace and name, or else the file; a path at which all are silent is missing |
| HelmValues.MergeHelmValues | pkg/services/helm.go:554-617 | the loops compute the merge of all layers, and fail exactly if a file, a ConfigMap, a non-empty text in one, or inline values that some entry sets cannot be read |
| ConfigValidation.ValidIff | api/v1/module_types.go:412-615 | the five validators accept exactly the inputs that meet their declaration, integers truncated toward zero and within bounds |
| ConfigValidation.JsonChoicesRejected | api/v1/module_types.go:586-602 | every JSON-decoded multiple choice is rejected |
| ConfigValidation.ChoiceBoundsIgnored | api/v1/module_types.go:576-614 | the bounds of a multiple choice have no effect |
| ConfigValidation.GetValidatedConfig | api/v1/module_types.go:744-792 | success gives exactly the declared aliases, each with what its last declaration makes of the given value, or of none if the alias is not given; failure means undecodable input or a failing declaration |
| ConfigValidation.ConfigUnique | api/v1/module_types.go:752-791 | declarations and input determine the outcome |
| ConfigValidation.OrderIrrelevant | api/v1/module_types.go:753-789 | with distinct aliases neither success nor outcome depends on the order of declarations |
| Admission.Default | internal/webhook/v1/module_webhook.go:67-95 | the character loop computes the namespace, a hyphen and the first eleven characters that are not hyphens, only if there is no name |
| Admission.GeneratedNameShape | internal/webhook/v1/module_webhook.go:77-91 | for a UUID these are its digits 1-8 and 9-11; the documented format is never met |
| Admission.DefaultedOnly | internal/webhook/v1/module_webhook.go:75-92 | defaulting only fills in a missing release name and changes nothing else |
| Admission.IdentityStable | internal/webhook/v1/module_webhook.go:284-394 | over any chain of submitted updates a Helm module has a release name, and effective release, effective namespace, workspace, adoption, configuration, outputs and image never change |
| Admission.AdmitsIff | internal/webhook/v1/module_webhook.go:284-394 | exactly which updates are admitted; the hibernation flag, migration lists and all other fields are free |
| Admission.NamespaceFreeIff | internal/webhook/v1/module_webhook.go:343-355 | the namespace field can be edited iff the module is adopted, and then it does not count |
| Admission.DroppedNameRefused | internal/webhook/v1/module_webhook.go:76-91 | an update without a release name is refused unless the generated one equals the stored one |
| Admission.AdoptedNeverTouched | internal/controller/module_operations.go:73-132 | hence over any chain of updates and any run an adopted module is never installed or uninstalled |
| Admission.ForkSharesReleaseIff | internal/controller/workspace_fork.go:44-65 | a fork stands for the same release and namespace as its source iff the source was not adopted, or adopted its own name |
| Admission.ListsEditable | internal/webhook/v1/module_webhook.go:309-365 | migration lists may be edited freely, so the lists of an edited fork need not align |

## Left out

- The custom manager, its runner pods and HTTP calls; custom modules appear in the module protocol and in the reconciler with unconstrained manager calls.
- Creating and removing the virtual cluster of a managed workspace: one step that succeeds or fails.
- Helm, git, HTTP, chart sources, kubeconfigs and the exec connection itself: steps that succeed or fail.
- The pods of a volume migration: their creation, readiness wait and clean-up are not modelled.
- Admission of workspaces, and admission of a new module's workspace reference and chart source: single field checks.
- Informer cache staleness, events, logging and messages.
- The text of templates, regular expressions, cron expressions and JSON; random functions inside templates may give any result.
- Cron jobs firing: they toggle the workspace's flag, which the environment does at any time anyway; the data race on the captured workspace object is not modelled.
- A fork's goroutines create their copies within the workspace protocol; what each does afterwards is the migration protocol, on a pair of modules of its own.
- MigrationController.Migrator.MigrateModuleData: ghost code, because the reconciles it interleaves with are given as a relation and have no executable form.
- MigrationController.Migrator.CopyStep: one object per step; the volume pipe and the Secret and ConfigMap stores are separate models.
- ObjectMigration.MigrateAll: one loop stands for the three of volumes, Secrets and ConfigMaps, which differ only in the service they call; its results per object assume that the destinations are distinct and, within one cluster, no sources.
- HelmValues.CoalesceAt: null values, which Helm uses to delete keys, are not modelled.
- HelmValues.MergeHelmValues: in-place modification of the merged maps is modelled on values.
- ConfigValidation.ValidIff: conversion of floats outside the range of a 64-bit integer is not modelled.
- Admission.IdentityStable: speaks of names before rendering; the configuration declarations are not protected, so a namespace that uses them can render differently after an edit.
- Rendering.RenderedLength: speaks of the three migration lists; whether the rest of a rendered specification decodes is not modelled.
- TarPipe.CopyCompleteIff: whether a source exec reports a failed write into the pipe is a property of the exec library, taken as a parameter.
