# VerticaDB operator, modelled in Dafny

The operator keeps a Vertica cluster in Kubernetes in line with a `VerticaDB` resource. It repeats
an ordered list of reconcile actors; any actor may abort the pass, and the next pass starts over.
This project models the parts of it where correctness depends on many steps, and proves what those
steps keep. `dafny verify dfyconfig.toml` checks all of it.

| module | what it models |
|---|---|
| `OnlineUpgrade`, `OnlineUpgradeSafety`, `OnlineUpgradeMessages`, `OnlineUpgradeRouting`, `OnlineUpgradeProgress`, `OnlineUpgradeCleanup`, `OnlineUpgradePass` | the online upgrade: the flat plan of a pass, what every prefix of every pass keeps, the status messages, where clients are sent while a subcluster is down, when a pass can fail by itself, what an aborted and a complete pass leave, and the reconciler's own loops proved to execute a prefix of that plan |
| `UpgradeExclusion`, `Conditions`, `Version` | which upgrade reconciler is at work, the condition array, upgrade paths |
| `PodFacts`, `ScaleDown`, `ScaleDownActors`, `ScaleDownSafety`, `ScaleDownLimits`, `ScaleDownProgress`, `CreateDb` | pods from install to removal: facts, status, the gate that guards scale-down, the order of hosts in create_db |
| `AdmintoolsConf`, `Text` | the admintools.conf writer on real strings; decimal numbers, splitting and joining |
| `Api` | the subcluster of the spec |
| `Revive`, `ReviveEncoding` | the revive order: encoder, decoder, round trip |
| `Autoscaler` | whole-subcluster scaling and pod resizing |
| `RestartPath` | the restart that follows the wait for read-only |
| `Webhook` | two checks that relate subclusters to each other |

## How the model is built

Code that updates fields step by step is a class or a method with the same loops; its contract ties
it to a function, and the lemmas are about that function. Kubernetes calls, pod exec and the clock
are steps that succeed or abort (`if *`), or parameters.

**Online upgrade.** `OnlineUpgrade.Plan` spells a pass out as a list of operations; an aborted pass
has executed a prefix of it. `OnlineUpgradePass.OnlineUpgradeReconciler.Reconcile` is the pass with
its nested loops and aborts, and is proved to end where a prefix ends. Runs are arbitrary sequences
of aborted and resumed passes; a pass that is not allowed to start is one that executes nothing.
The image in the spec and the user's subclusters stay fixed during the upgrade. The listing of
statefulsets is by name. Whether a node is up and writable is asked twice; safety is proved for any
two answers, progress for equal ones, as both come from the same cached facts.

**Upgrade exclusion.** A machine over the two reconcilers' step lists, with webhook-accepted edits
between any two steps. The decision of a gate and the start it leads to are one step, and so are
the two condition writes of `toggleImageChangeInProgress`. The version annotation is changed by the
operator only.

**Scale-down.** A machine over all subclusters: what is true of pods, what the status says, what the
cached facts say. Pods start and stop at any time, also those that an upgrade deletes; a collection
of facts may fail and leave none; every pass may abort anywhere. An actor goes on to the next one
only when it has handled all its subclusters without asking for a requeue; the uninstall and the
install refuse to start while a pod that is believed installed does not run. The set-up, install,
uninstall and object reconcile that the two upgrades run between the first status and the rest of the
pass are part of the machine, and are passed when no upgrade is due. Facts are invalidated where the
source does so; the restart actor is kept only for this, and the machine lets it pass as it does with
`autoRestartVertica` off. The spec changes whenever no actor is in the middle of its subclusters, as
every write of the status reads it again. An install or uninstall may fail between admintools.conf
and the indicator files. Distributing admintools.conf to all pods is one step, and
`Status.Replicas` of a statefulset has caught up with `Spec.Replicas`.

Where comments in the source and its code differ, the model follows the code: `postNextStatusMsg`
moves on from any earlier message, not only from the one before
(pkg/controllers/vdb/upgrade.go:256-282), and `routeClientTraffic` takes a subcluster name and a
flag, no check function (pkg/controllers/vdb/onlineupgrade_reconciler.go:659-664).

## Where a promise does not hold as it stands

- **At most one upgrade condition.** Both can be set when the license is removed in the middle of
  an automatic online upgrade with a transient template. `UpgradeExclusion.ExclusionExact` is the
  exact condition over runs, `UpgradeExclusion.LicenseEditClashes` builds such a run from every
  upgrade of that kind, and `UpgradeExclusion.LicensedUpgradeExists` names one.
- **No shrink past an installed pod.** It can happen in five ways: an installed pod stops while the
  install count does not reach its index; the uninstall passes over a pod that still has the database
  and takes one below it; `PodFacts.Collect` swallows an error, and the status is written from no
  facts while an installed pod is down; an install starts from a count above the installed pods, so
  that it passes over one; or an install or uninstall fails between admintools.conf and the last
  indicator file. `ScaleDownSafety.NothingOrphaned` proves the promise for all runs without these
  five. For each of them there is a run from the start, past all guards and requeues, in which nothing
  else is out of order and an admintools.conf entry is orphaned
  (`ScaleDownLimits.UnrecordedStopOrphans`, `ScaleDownLimits.DisorderlyUninstallOrphans`,
  `ScaleDownLimits.BlindStatusOrphans`, `ScaleDownLimits.EarlyInstallOrphans`,
  `ScaleDownLimits.HalfDoneOrphans`). `ScaleDownSafety.UninstallExact`,
  `ScaleDownSafety.BlindRefreshExact` and `ScaleDownSafety.InstallExact` are the exact conditions for
  the three actor steps. `ScaleDownSafety.CalmInstallsAreOrderly`: the fourth way needs the install of
  an upgrade, or a spec that is read again between the status before the uninstall and the install.
- **Removing a host removes its node.** `removeNodes` searches for a substring.
  `AdmintoolsConf.RemoveNodesExact` is the exact condition, `AdmintoolsConf.RemoveNodesSuffixClash`
  the failure, and `AdmintoolsConf.AddressesThatClash` names two such addresses.
- **Node names sort like node numbers.** Names of different widths compare by their leading digits:
  `CreateDb.NamesSortExact` and `CreateDb.SortExact` are the exact conditions for two numbers and for a
  list, `CreateDb.FiveDigitsSortFirst` the first two names that fail. The code does not get that far:
  the install looks names up by a pattern of four digits and stops at node 10000
  (`CreateDb.FoundExact`), so the host list of create_db stays in pod order
  (`CreateDb.CreateDbStaysInPodOrder`).
- **The status message moves forward.** It holds exactly for a status that is empty or among the
  messages of the pass (`OnlineUpgradeMessages.PassPosts`); any other one stays until the end.
- **No release is skipped.** The table of upgrade paths has an entry per patch level, so a patch level
  that it does not list escapes it: 11.0.0, 11.0.3, 12.0.0 is accepted (`Version.ReleaseSkipped`).
  `Version.UpgradePathExact` is the exact condition for one upgrade, and `Version.NoReleaseSkipped`
  shows that a chain of upgrades can skip 11.1 in no other way.
- **Adding subclusters ends.** The loop of `considerAddingSubclusters` ends exactly when the base has
  a positive size (`Autoscaler.LoopEndsExact`); behind a service that was resized to nothing it adds
  empty subclusters for ever (`Autoscaler.EmptyBaseNeverEnds`).
- **A second scaling step changes nothing.** `Autoscaler.SecondStepExact` is the exact condition: it
  fails when the service has no name and a base fits. Then what is added does not count, and every
  step adds as many subclusters again (`Autoscaler.AddsForever`).

## Model

| member | source | states |
|---|---|---|
| OnlineUpgradeSafety.ShapeKept | pkg/controllers/vdb/onlineupgrade_reconciler.go:73-113 | after any operations of a pass the spec is the user's with at most the one transient appended, which has the template's name and size, is secondary and runs the old image; every other statefulset has the old or the new one |
| OnlineUpgradeSafety.OriginsKept | pkg/controllers/vdb/onlineupgrade_reconciler.go:420-440 | a non-transient statefulset has the new image exactly when it had it before the pass or was recreated, unless the clean-up created it |
| OnlineUpgradeSafety.PrimariesFirst | pkg/controllers/vdb/onlineupgrade_reconciler.go:338-388 | a prefix of the pass that recreates a secondary or cleans up has recreated every primary |
| OnlineUpgradeSafety.PassKeepsOrder | pkg/controllers/vdb/onlineupgrade_reconciler.go:338-388 | a pass aborted anywhere leaves no secondary on the new image while a primary is on the old one |
| OnlineUpgradeSafety.UpgradeInvariant | pkg/controllers/vdb/onlineupgrade_reconciler.go:67-116 | over every run of aborted and resumed passes: secondaries wait for primaries, the spec is the user's plus at most the transient, and every rerouted service belongs to a subcluster that a later pass visits |
| OnlineUpgradeSafety.NormalStep | pkg/controllers/vdb/onlineupgrade_reconciler.go:663-703 | only draining a subcluster takes a service off its service-name routing, and only its own service |
| OnlineUpgradeSafety.OnlineAllRestores | pkg/controllers/vdb/onlineupgrade_reconciler.go:502-522 | bringing subclusters online in turn restores the services of all of them, also when they share one |
| OnlineUpgradeSafety.SecondaryRestores | pkg/controllers/vdb/onlineupgrade_reconciler.go:371-388 | processing a secondary gives its service back and disturbs no other restored one |
| OnlineUpgradeSafety.CompletedPassRestores | pkg/controllers/vdb/onlineupgrade_reconciler.go:73-113 | a completed pass leaves every service of a subcluster with a statefulset on service-name routing, whatever earlier passes left |
| OnlineUpgradeSafety.CompletedUpgrade | pkg/controllers/vdb/onlineupgrade_reconciler.go:73-113 | when finishUpgrade is reached every statefulset is non-transient and on the new image, the subcluster list is the original one, all services are on service-name routing, and no upgrade is needed |
| OnlineUpgradeSafety.RunCompletes | pkg/controllers/vdb/onlineupgrade_reconciler.go:67-116 | the same after any number of aborted passes from the initial state |
| OnlineUpgradeSafety.RoutedElsewhere | pkg/controllers/vdb/onlineupgrade_reconciler.go:707-783 | without a transient, clients of a subcluster that goes down are sent to another one exactly when a configured one exists; by default, for a secondary, exactly when any other one exists, and for a primary, exactly when a secondary exists or the first subcluster is another one |
| OnlineUpgradeSafety.RoutedToTransient | pkg/controllers/vdb/onlineupgrade_reconciler.go:707-730 | with a transient, clients go there exactly when its statefulset exists, and nowhere else |
| OnlineUpgradeRouting.DivertedBeforeRecreated | pkg/controllers/vdb/onlineupgrade_reconciler.go:338-416 | in every prefix of a pass, when the next step recreates a subcluster that is on another image, its service exists and there is somewhere to send its clients, that service selects the temporary target of a subcluster behind it: its own one if it shares the service with none |
| OnlineUpgradeRouting.DrainLeavesNew | pkg/controllers/vdb/onlineupgrade_reconciler.go:402-416 | draining a subcluster that is on the new image changes no service |
| OnlineUpgradeCleanup.StartedIsResumed | pkg/controllers/vdb/upgrade.go:65-108 | a pass that has started and is aborted before its end leaves the upgrade in progress, so that the next pass takes it up whatever the images are |
| OnlineUpgradeCleanup.CompletedServes | pkg/controllers/vdb/onlineupgrade_reconciler.go:591-599 | with a transient template, a completed upgrade leaves every subcluster of the user with a statefulset and a service |
| OnlineUpgradeCleanup.MessagesTellTheStep | pkg/controllers/vdb/onlineupgrade_reconciler.go:135-163 | whenever a step of a pass is executed, the last message posted is the one about that step and, for a secondary, about that secondary |
| OnlineUpgradeMessages.PlanPosts | pkg/controllers/vdb/onlineupgrade_reconciler.go:135-163 | a complete pass posts exactly as many messages as it precomputed, 9 and 3 per secondary |
| OnlineUpgradeMessages.MessagesDistinct | pkg/controllers/vdb/onlineupgrade_reconciler.go:136-160 | no message occurs twice and none is empty when secondaries have different names |
| OnlineUpgradeMessages.PostNeverOutOfBounds | pkg/controllers/vdb/upgrade.go:259-262 | posting never runs past the list, whatever status an earlier pass left |
| OnlineUpgradeMessages.PassPosts | pkg/controllers/vdb/upgrade.go:259-282 | after posting message m the index kept in the status is the larger of the one found and m, for a status that is empty or known; any other status is left alone |
| OnlineUpgradeMessages.NamesStep | pkg/controllers/vdb/onlineupgrade_reconciler.go:314-335 | listing the statefulsets again in mid-pass gives the same primaries and secondaries until the clean-up creates a missing statefulset, and never fewer |
| OnlineUpgradeMessages.PassMovesForward | pkg/controllers/vdb/upgrade.go:259-282 | a pass never moves the status to an earlier message before it clears it, also when user subclusters still lack their statefulsets; the list of secondaries changes only with the last message posted or the status cleared |
| OnlineUpgradeMessages.StatusNeverMovesBack | pkg/controllers/vdb/upgrade.go:259-282 | over every run of resumed passes the status never moves to an earlier message until it is cleared |
| OnlineUpgradeProgress.TransientSteps | pkg/controllers/vdb/onlineupgrade_reconciler.go:182-242 | adding the transient and creating its statefulset fails exactly when it is needed, is not in the spec yet, and no primary statefulset tells the old image |
| OnlineUpgradeProgress.TransientReady | pkg/controllers/vdb/onlineupgrade_reconciler.go:182-242 | before the first primary is drained the transient and its statefulset exist and take all rerouted traffic, if a template asks for one, a node is up and a primary is still on the old image |
| OnlineUpgradeProgress.PassFailsExactly | pkg/controllers/vdb/onlineupgrade_reconciler.go:67-116 | a pass without outside aborts fails exactly in that case, never because of what an aborted pass left behind |
| OnlineUpgradeProgress.ResumedPassCompletes | pkg/controllers/vdb/onlineupgrade_reconciler.go:67-116 | from every state that aborted passes can reach, a pass without aborts exists and completes the upgrade |
| OnlineUpgradePass.Steady | pkg/controllers/vdb/onlineupgrade_reconciler.go:314-335 | before the clean-up no operation changes what a listing shows or which subclusters the user has |
| OnlineUpgradePass.OnlineUpgradeReconciler.IsUpgradeNeeded | pkg/controllers/vdb/upgrade.go:65-108 | an upgrade is needed exactly when the operator does more than schedule and one is in progress, or the policy allows it and some statefulset of a subcluster of the spec has another image |
| OnlineUpgradePass.OnlineUpgradeReconciler.FindTransientSubcluster | api/v1beta1/verticadb_types.go:884-891 | the first transient subcluster, if any |
| OnlineUpgradePass.OnlineUpgradeReconciler.CachePrimaryImages | pkg/controllers/vdb/onlineupgrade_reconciler.go:602-624 | the images of the primaries, each once |
| OnlineUpgradePass.OnlineUpgradeReconciler.FetchOldImageName | pkg/controllers/vdb/onlineupgrade_reconciler.go:629-636 | a primary image other than the new one, or none when there is no such image |
| OnlineUpgradePass.OnlineUpgradeReconciler.LoadSubclusterState | pkg/controllers/vdb/onlineupgrade_reconciler.go:120-131 | executes the load step of the plan or aborts without effect |
| OnlineUpgradePass.OnlineUpgradeReconciler.AppendStatusMsgs | pkg/controllers/vdb/onlineupgrade_reconciler.go:136-160 | the fixed messages, three per listed secondary in listing order, and the last message |
| OnlineUpgradePass.OnlineUpgradeReconciler.PrecomputeStatusMsgs | pkg/controllers/vdb/onlineupgrade_reconciler.go:135-163 | executes the precompute step of the plan or aborts |
| OnlineUpgradePass.OnlineUpgradeReconciler.PostNextStatusMsg | pkg/controllers/vdb/upgrade.go:259-282 | executes one post of the plan or aborts |
| OnlineUpgradePass.OnlineUpgradeReconciler.AddTransientToVdb | pkg/controllers/vdb/onlineupgrade_reconciler.go:182-227 | executes the plan's addition of the transient, or aborts; fails when no old image is known |
| OnlineUpgradePass.OnlineUpgradeReconciler.CreateTransientSts | pkg/controllers/vdb/onlineupgrade_reconciler.go:232-242 | executes the plan's creation of the transient statefulset, or aborts |
| OnlineUpgradePass.OnlineUpgradeReconciler.DropTransients | pkg/controllers/vdb/onlineupgrade_reconciler.go:540-546 | deleting backwards in place leaves exactly the non-transient subclusters in order and reports whether any was deleted |
| OnlineUpgradePass.OnlineUpgradeReconciler.RemoveTransientFromVdb | pkg/controllers/vdb/onlineupgrade_reconciler.go:525-555 | executes the plan's removal of the transient from the spec, or aborts |
| OnlineUpgradePass.OnlineUpgradeReconciler.GenSubclusterMap | api/v1beta1/verticadb_types.go:934-941 | maps each name to the last subcluster that has it |
| OnlineUpgradePass.OnlineUpgradeReconciler.PickDefaultForTemporaryRouting | pkg/controllers/vdb/onlineupgrade_reconciler.go:758-783 | the loops find the first secondary, or the first other subcluster |
| OnlineUpgradePass.OnlineUpgradeReconciler.GetSubclusterForTemporaryRouting | pkg/controllers/vdb/onlineupgrade_reconciler.go:707-753 | the transient if its statefulset exists, else the first configured subcluster that stays up, else the default |
| OnlineUpgradePass.OnlineUpgradeReconciler.RouteClientTraffic | pkg/controllers/vdb/onlineupgrade_reconciler.go:663-703 | changes only the selector of the subcluster's own existing service; fails for a subcluster that is not in the spec |
| OnlineUpgradePass.OnlineUpgradeReconciler.DrainSubcluster | pkg/controllers/vdb/onlineupgrade_reconciler.go:402-416 | executes a drain of the plan, which reroutes exactly on the old image; may abort after rerouting |
| OnlineUpgradePass.OnlineUpgradeReconciler.RecreateSubclusterWithNewImage | pkg/controllers/vdb/onlineupgrade_reconciler.go:420-440 | gives the statefulset of that name the new image and touches no other; may abort before or after |
| OnlineUpgradePass.OnlineUpgradeReconciler.BringSubclusterOnline | pkg/controllers/vdb/onlineupgrade_reconciler.go:502-522 | executes the plan's rerouting back to the subcluster, or aborts |
| OnlineUpgradePass.OnlineUpgradeReconciler.IteratePrimaries | pkg/controllers/vdb/onlineupgrade_reconciler.go:314-335 | executes a prefix of one function over all listed primaries, all of it exactly when nothing aborts |
| OnlineUpgradePass.OnlineUpgradeReconciler.RestartPrimaries | pkg/controllers/vdb/onlineupgrade_reconciler.go:338-360 | executes a prefix of all functions over all primaries, one function after the other |
| OnlineUpgradePass.OnlineUpgradeReconciler.ProcessSecondary | pkg/controllers/vdb/onlineupgrade_reconciler.go:371-388 | executes a prefix of the steps of one secondary and, when it completes, recreates only that one |
| OnlineUpgradePass.OnlineUpgradeReconciler.RestartSecondaries | pkg/controllers/vdb/onlineupgrade_reconciler.go:364-368 | executes a prefix of the steps of all secondaries, one secondary after the other |
| OnlineUpgradePass.OnlineUpgradeReconciler.CheckForCreatedSubcluster | pkg/controllers/vdb/obj_reconcile.go:170-182 | puts the subcluster's service on service-name routing and then creates its statefulset if missing; may abort before, between or after |
| OnlineUpgradePass.OnlineUpgradeReconciler.CheckForDeletedSubcluster | pkg/controllers/vdb/obj_reconcile.go:186-213 | keeps exactly the statefulsets whose subcluster is in the spec, or aborts |
| OnlineUpgradePass.OnlineUpgradeReconciler.DeleteTransientSts | pkg/controllers/vdb/onlineupgrade_reconciler.go:591-599 | executes a prefix of the plan's object reconcile over all subclusters of the spec |
| OnlineUpgradePass.OnlineUpgradeReconciler.FinishUpgrade | pkg/controllers/vdb/upgrade.go:128-142 | clears the status before the condition; may abort between the two |
| OnlineUpgradePass.OnlineUpgradeReconciler.Reconcile | pkg/controllers/vdb/onlineupgrade_reconciler.go:67-116 | a pass ends where a prefix of the plan ends, and completes the plan when no step aborts |
| UpgradeExclusion.StepKeepsInv | pkg/controllers/vdb/upgrade.go:65-157 | every step of both reconcilers, the later actors and webhook-accepted edits keeps the conditions exclusive, except an offline start while an online upgrade lost its license |
| UpgradeExclusion.ExclusionExact | pkg/controllers/vdb/verticadb_controller.go:109-150 | over every run both conditions are set in some state exactly when such a start occurs |
| UpgradeExclusion.UpgradesExclude | api/v1beta1/verticadb_webhook.go:776-809 | without a removed license the conditions exclude each other in every reachable state, and the image-change condition is set exactly when one of them is |
| UpgradeExclusion.OnlineStarts | pkg/controllers/vdb/upgrade.go:285-306 | a licensed automatic upgrade with a transient template passes the offline gate and starts online |
| UpgradeExclusion.LicenseEditClashes | pkg/controllers/vdb/upgrade.go:285-311 | from every such start, removing the license in mid-upgrade leads to both conditions set |
| UpgradeExclusion.OnlineAllowedExact | pkg/controllers/vdb/upgrade.go:285-306 | by the fields of the spec: online from 11.1 on unless the policy is offline; with the automatic policy, or none, only with k-safety and, for a named template of positive size, with a license |
| UpgradeExclusion.UpgradeRecordsVersion | pkg/controllers/vdb/onlineupgrade_reconciler.go:442-461 | an upgrade that ignores the upgrade path records no version, any other one never an older version |
| UpgradeExclusion.StepsInOrder | pkg/controllers/vdb/offlineupgrade_reconcile.go:81-112 | either upgrade checks the version once, after it has set an image, and clears its conditions in its last step only |
| UpgradeExclusion.FrozenDuringUpgrade | api/v1beta1/verticadb_webhook.go:776-809 | over every run the upgrade policy, the transient template and the routing names stay the same from the start of an upgrade to its end |
| Version.AcceptedPathKeepsFloor | pkg/version/version.go:135-173 | an accepted upgrade path never goes below a version floor that the current version meets |
| Version.UpgradePathExact | pkg/version/version.go:61-67 | an upgrade is accepted exactly when it does not go back, and changes only the patch level, or leads from 11.0.0 to 11.0.2 to 11.1, from 11.1.0 and 11.1.1 to 12.0, or from any other version |
| Version.NoReleaseSkipped | pkg/version/version.go:135-173 | every chain of accepted upgrades from 11.0 past 11.1 goes through 11.1 or through a patch level of 11.0 above 2 |
| Version.ReleaseSkipped | pkg/version/version.go:160-166 | the second can happen without the first |
| Conditions.VerticaDBStatus.UpdateCondition | pkg/vdbstatus/status.go:64-92 | writes a slot only when its status differs, keeping its time otherwise, fills the slots before it with False and leaves all others; an unknown condition changes nothing |
| Conditions.ArrayRefinesMap | api/v1beta1/verticadb_types.go:1041-1055 | after any writes a condition is set exactly when its last write was True |
| Conditions.SlotShowsLastChange | pkg/vdbstatus/status.go:64-92 | after any writes a slot exists exactly when a write went to it or to a later one, and shows the write that last changed its status, with the time of that change |
| Conditions.SlotsKeepTheirMeaning | api/v1beta1/verticadb_types.go:731-760 | after any writes the six types are in their fixed slots, and there are no more slots |
| Conditions.NeverShrinks | pkg/vdbstatus/status.go:64-92 | further writes never shorten the array |
| PodFacts.CollectPod | pkg/controllers/vdb/podfacts.go:258-314 | whether a running pod is installed, has the database and under which name is as it is; of another pod it is what counts and names in the status say |
| PodFacts.CollectSubcluster | pkg/controllers/vdb/podfacts.go:181-198 | one fact for every pod, exactly up to the larger of size and replicas |
| PodFacts.ResizeDetail | pkg/controllers/vdb/status_reconcile.go:146-160 | the detail gets exactly the size, keeps what fits and fills the rest with zero entries |
| PodFacts.CalculateSubclusterStatus | pkg/controllers/vdb/status_reconcile.go:100-141 | the counts are the numbers of pods that the facts show installed and with the database, and the names those of the facts, for exactly the pods of the subcluster |
| PodFacts.VnodesKnown | pkg/controllers/vdb/podfacts.go:392-427 | for every pod: a running pod with the database has the vnode name of that database in its fact and, after a refresh, in the status; any other keeps the name it has there |
| PodFacts.CountTells | pkg/controllers/vdb/status_reconcile.go:120-139 | a count tells which entries are true exactly when the true ones come first |
| PodFacts.LosslessExact | pkg/controllers/vdb/podfacts.go:392-427 | compressing facts to the status and collecting again with any of the running pods stopped gives the same isInstalled, dbExists and vnodeName exactly when installed pods and pods with the database come first |
| ScaleDownActors.FindPodsToUninstall | pkg/controllers/vdb/uninstall_reconcile.go:163-192 | by the facts alone: exactly the installed running pods without the database beyond the size, in index order; a requeue exactly when a pod of the range is unknown, or installed and not running, or installed with the database |
| ScaleDownActors.FindPodsToRemove | pkg/controllers/vdb/dbremovenode_reconcile.go:158-181 | by the facts alone: exactly the running pods with the database beyond the size, in index order; a requeue exactly when a pod of the range is unknown, or has the database and is not running |
| ScaleDownActors.CheckForOrphanEntries | pkg/controllers/vdb/obj_reconcile.go:414-436 | lets the statefulset shrink exactly when there is a fact for every pod to be deleted and it shows neither an installation nor the database |
| ScaleDownActors.AddInstallTargets | pkg/controllers/vdb/install_reconcile.go:199-224 | exactly the running pods that are neither installed nor in the database, in index order from the install count up to the first pod that is unknown, or that neither runs nor is installed nor has the database |
| ScaleDownActors.GetInstallTargets | pkg/controllers/vdb/install_reconcile.go:191-226 | the targets of all subclusters in the order in which they are walked |
| ScaleDown.UninstallIs | pkg/controllers/vdb/uninstall_reconcile.go:163-192 | which pods the machine uninstalls, by the facts alone and in ascending order |
| ScaleDown.RemoveIs | pkg/controllers/vdb/dbremovenode_reconcile.go:158-181 | which pods the machine removes from the database, by the facts alone and in ascending order |
| ScaleDown.InstallIs | pkg/controllers/vdb/install_reconcile.go:199-224 | which pods the machine installs, by the facts alone and in ascending order |
| ScaleDown.RequeuesExact | pkg/controllers/vdb/dbremovenode_reconcile.go:158-181 | when uninstall and db_remove_node ask for a requeue, by the facts alone |
| ScaleDownActors.RemoveNodeCovers | pkg/controllers/vdb/dbremovenode_reconcile.go:77-100 | db_remove_node goes on only after every subcluster of the spec with more pods than it asks for |
| ScaleDownActors.RemoveNodeClears | pkg/controllers/vdb/dbremovenode_reconcile.go:103-137 | handling a subcluster without a requeue, with facts that miss no database, leaves none on the pods beyond its size |
| ScaleDownActors.UninstallCovers | pkg/controllers/vdb/uninstall_reconcile.go:78-112 | the uninstall goes on only after every statefulset with more pods than the spec asks for, and every one with any pod whose subcluster is not in the spec |
| ScaleDownActors.UninstallClears | pkg/controllers/vdb/uninstall_reconcile.go:120-157 | handling a subcluster without a requeue, with facts that miss no installation, leaves none of those pods in admintools.conf |
| ScaleDownSafety.CollectedOk | pkg/controllers/vdb/podfacts.go:149-198 | facts of a collection that succeeds miss no installed pod and no database of a running pod, and are exact about running pods |
| ScaleDownSafety.RefreshedOk | pkg/controllers/vdb/status_reconcile.go:100-141 | a refresh never counts fewer pods than are installed, and exactly those when every pod believed installed runs |
| ScaleDownSafety.BlindRefreshExact | pkg/controllers/vdb/podfacts.go:149-161 | a status written after a collection that failed silently keeps the invariant exactly when every installed pod is running |
| ScaleDownSafety.UninstallExact | pkg/controllers/vdb/uninstall_reconcile.go:120-157 | uninstalling keeps the installed pods a prefix exactly when it passes over no installed pod above a target |
| ScaleDownSafety.GateSafe | pkg/controllers/vdb/obj_reconcile.go:414-436 | the gate never opens while an installed pod would go, also with no facts at all |
| ScaleDownSafety.GateExact | pkg/controllers/vdb/obj_reconcile.go:414-436 | when every pod believed installed runs, the gate opens exactly when no installed pod would go and the facts cover the pods that would |
| ScaleDownSafety.CleanScaleDownPasses | pkg/controllers/vdb/uninstall_reconcile.go:78-157 | past the guard of the uninstall, and with no database on the pods to be removed, it works from the top down and the gate opens afterwards |
| ScaleDownSafety.TargetsFollow | pkg/controllers/vdb/install_reconcile.go:191-226 | past the guard of the install, and with a count not above the installed pods, the targets are the next pods without a gap |
| ScaleDownSafety.InstallExact | pkg/controllers/vdb/install_reconcile.go:78-145 | past its guard an install keeps the installed pods a prefix exactly when it has no targets or starts from a count not above the installed pods |
| ScaleDownSafety.InstallOk | pkg/controllers/vdb/install_reconcile.go:106-145 | such an install keeps the prefix, the increasing node numbers and what the status knows of pods that are down |
| ScaleDownSafety.Step | pkg/controllers/vdb/verticadb_controller.go:109-205 | every orderly event keeps the joint invariant of truth, status and facts: of the actors of a pass, of what both upgrades do to pods, of a failed collection, and of pods and spec outside the operator |
| ScaleDownSafety.NothingOrphaned | pkg/controllers/vdb/obj_reconcile.go:373-379 | over every orderly run, every pod with an admintools.conf entry or the database is a pod of its statefulset; installed pods are a prefix with increasing node numbers |
| ScaleDownSafety.CalmInstallsAreOrderly | pkg/controllers/vdb/verticadb_controller.go:177-187 | when the spec is not read again from the status before the uninstall to the install, that install starts from a count not above the installed pods, so nothing has to be asked of it |
| ScaleDownLimits.ShrinkPass | pkg/controllers/vdb/verticadb_controller.go:133-205 | when the facts show the pods to be removed clear and every pod believed installed running, a pass gets past all guards and requeues and the statefulset shrinks |
| ScaleDownLimits.UnrecordedStopOrphans | pkg/controllers/vdb/podfacts.go:261-273 | there is a run from the start, orderly but for stops of pods that the status has not recorded, that ends with an orphaned admintools.conf entry |
| ScaleDownLimits.DisorderlyUninstallOrphans | pkg/controllers/vdb/uninstall_reconcile.go:163-192 | there is such a run, orderly but for an uninstall that passes over a pod with the database |
| ScaleDownLimits.BlindStatusOrphans | pkg/controllers/vdb/podfacts.go:149-161 | there is such a run, orderly but for a status written after a collection that failed silently |
| ScaleDownLimits.EarlyInstallOrphans | pkg/controllers/vdb/offlineupgrade_reconcile.go:262-268 | there is such a run, orderly but for the install of an upgrade that starts from a count above the installed pods |
| ScaleDownLimits.HalfDoneOrphans | pkg/controllers/vdb/install_reconcile.go:131-145 | there is such a run, orderly but for an install that fails between admintools.conf and the last indicator file |
| ScaleDownProgress.PassReachesSpec | pkg/controllers/vdb/obj_reconcile.go:81-112 | over every run, when a pass gets past the object reconcile every subcluster of the spec has a statefulset of its size and no other subcluster has one |
| CreateDb.NamesSortExact | pkg/controllers/vdb/createdb_reconcile.go:220-225 | of two node numbers the smaller one has the smaller name exactly when the names have one width or the smaller number, padded with zeros to the other width, is not beyond the larger |
| CreateDb.FiveDigitsSortFirst | pkg/controllers/vdb/createdb_reconcile.go:220-225 | as names: that of node 10000 sorts before that of node 9999 |
| CreateDb.FoundExact | pkg/controllers/vdb/install_reconcile.go:253-269 | the install finds the name of a node in admintools.conf exactly up to node 9999 |
| CreateDb.FirstExact | pkg/controllers/vdb/createdb_reconcile.go:220-234 | the sort puts the first pod first exactly when its name is the smallest |
| CreateDb.SortExact | pkg/controllers/vdb/createdb_reconcile.go:206-236 | whatever the sort does with increasing node numbers, it gives the pods back in pod order exactly when all names sort like the numbers |
| CreateDb.CreateDbInPodOrder | pkg/controllers/vdb/createdb_reconcile.go:206-236 | over every orderly run the host list of create_db is in pod order exactly when the names sort like the numbers; for k-safety 0, exactly when the first name is the smallest |
| CreateDb.CreateDbStaysInPodOrder | pkg/controllers/vdb/createdb_reconcile.go:206-236 | over every orderly run, for pods whose names the install has found, the host list of create_db is in pod order |
| AdmintoolsConf.FileWriter.GetHosts | pkg/atconf/file_writer.go:271-282 | the set of hosts in the file |
| AdmintoolsConf.FileWriter.GetNextNodeNumber | pkg/atconf/file_writer.go:286-304 | one more than the highest node number in the file |
| AdmintoolsConf.FileWriter.AddToClusterHosts | pkg/atconf/file_writer.go:188-210 | appends to the host line exactly the addresses that are not in it |
| AdmintoolsConf.FileWriter.AddNodes | pkg/atconf/file_writer.go:233-249 | adds one numbered entry per new address, numbers consecutive |
| AdmintoolsConf.FileWriter.AddHosts | pkg/atconf/file_writer.go:169-175 | host line and entries together equal the specified file |
| AdmintoolsConf.FileWriter.RemoveFromClusterHosts | pkg/atconf/file_writer.go:214-229 | takes the last occurrence of each address out of the host line; fails without one |
| AdmintoolsConf.FileWriter.RemoveNodes | pkg/atconf/file_writer.go:252-268 | deletes exactly the options that mention an address |
| AdmintoolsConf.FileWriter.RemoveHosts | pkg/atconf/file_writer.go:179-184 | host line and entries together equal the specified file |
| AdmintoolsConf.NewNodesAreFresh | pkg/atconf/file_writer.go:286-304 | a number above the highest names no existing option, as decimal text padded to four digits |
| AdmintoolsConf.AddKeepsSynced | pkg/atconf/file_writer.go:188-249 | adding keeps hosts free of duplicates and in bijection with node entries, appends exactly the new addresses in order and leaves old options alone |
| AdmintoolsConf.RemoveNodesExact | pkg/atconf/file_writer.go:252-268 | removing an address deletes exactly its own entry if and only if no other host and not the data path ends in it |
| AdmintoolsConf.RemoveNodesSuffixClash | pkg/atconf/file_writer.go:259 | with two hosts of which one ends the other, removing the shorter one deletes both entries |
| AdmintoolsConf.RemoveKeepsSynced | pkg/atconf/file_writer.go:214-268 | removing separate addresses keeps the bijection and removes exactly those hosts and entries |
| AdmintoolsConf.AddThenRemoveRestores | pkg/atconf/file_writer.go:169-304 | adding fresh addresses and removing them restores hosts and nodes |
| AdmintoolsConf.HistorySynced | pkg/atconf/file_writer.go:169-304 | from any file in which hosts and entries are in bijection, over any history of additions and removals of suffix-free addresses, they stay so |
| Revive.ReviveDBReconciler.AddPodsFromSubcluster | pkg/controllers/vdb/revivedb_reconcile.go:190-205 | appends the next pods of one subcluster; fails only when a pod is not found |
| Revive.ReviveDBReconciler.GetPodList | pkg/controllers/vdb/revivedb_reconcile.go:172-235 | fails exactly when an index is out of range or a pod is not found; otherwise gives the decoded list, a list of all pods |
| Revive.DecodeIsPodList | pkg/controllers/vdb/revivedb_reconcile.go:208-234 | for every revive order in range, whatever its counts, the list has of each subcluster exactly its pods in index order |
| Revive.EntryTakes | pkg/controllers/vdb/revivedb_reconcile.go:216-220 | an entry with a count that is zero, negative or too large takes all pods left of its subcluster, any other exactly its count |
| Revive.RestFollows | pkg/controllers/vdb/revivedb_reconcile.go:226-234 | after the entries come the pods they left out, by subcluster in the order of the spec |
| Revive.EachPodOnce | pkg/controllers/vdb/revivedb_reconcile.go:172-235 | such a list is a permutation of all pods, each once, indices increasing within a subcluster |
| Revive.IndexCounts | pkg/controllers/vdb/revivedb_reconcile.go:192-203 | the index of a pod in such a list is the number of earlier pods of its subcluster |
| ReviveEncoding.ValidNameExact | api/v1beta1/verticadb_types.go:943-949 | the names that can be used are those the regular expression matches: a letter or digit, alone or followed by up to 61 letters, digits and dashes and a letter or digit |
| ReviveEncoding.DBGenerator.SetSubclusterDetail | pkg/vdbgen/vdb.go:425-476 | fails exactly when there is no row or a name cannot be used; otherwise subclusters and revive order encode the rows, and each subcluster has the primary flag of the first row with its name |
| ReviveEncoding.DBGenerator.AddNode | pkg/vdbgen/vdb.go:453-470 | one more row: the encoding of the rows so far, primary flags included, becomes that of the rows with it |
| ReviveEncoding.AddRow | pkg/vdbgen/vdb.go:453-470 | counting the row in its subcluster and in the last run keeps names distinct, sizes exact, primary flags those of the first rows, and the expanded order equal to the rows |
| ReviveEncoding.DecodesAsSpelled | pkg/controllers/vdb/revivedb_reconcile.go:208-225 | an order that asks for no more pods than there are is decoded entry by entry |
| ReviveEncoding.RoundTrip | pkg/vdbgen/vdb.go:425-476 | decoding an encoded sequence of rows gives as k-th pod one of the k-th row's subcluster, with the number of earlier rows of it as index; its subcluster is primary exactly when the row is, if rows of one name agree |
| Autoscaler.SubclusterScaleReconciler.ConsiderRemovingSubclusters | pkg/controllers/vas/subclusterscale_reconcile.go:100-116 | deleting backwards in place equals the specified removal; reports a change exactly when the length changed |
| Autoscaler.RemovedIs | pkg/controllers/vas/subclusterscale_reconcile.go:100-116 | removal never goes below the target and stops only when exact, when nothing is left behind the service, or when the last subcluster there is bigger than the excess; others keep content and order |
| Autoscaler.RemovedFromEnd | pkg/controllers/vas/subclusterscale_reconcile.go:100-116 | of the subclusters behind the service the first ones stay as they are and the last ones go |
| Autoscaler.RemovedTwice | pkg/controllers/vas/subclusterscale_reconcile.go:100-116 | a second removal changes nothing |
| Autoscaler.GenNextSubclusterName | pkg/controllers/vas/subclusterscale_reconcile.go:138-152 | terminates with the name of the template, or else of the autoscaler, and the first number whose name is not in the map, after at most as many taken names as the map has keys |
| Autoscaler.TakenNames | pkg/controllers/vas/subclusterscale_reconcile.go:143-151 | different numbers give different names, so i taken names are i different keys |
| Autoscaler.SubclusterScaleReconciler.CalcNextSubcluster | pkg/controllers/vas/subclusterscale_reconcile.go:166-186 | a copy of the template, or of the last subcluster behind the service, under a new name; none when there is neither |
| Autoscaler.SubclusterScaleReconciler.ConsiderAddingSubclusters | pkg/controllers/vas/subclusterscale_reconcile.go:120-135 | the loop equals the specified growth by as many copies of the base as fit, with the first free names |
| Autoscaler.LoopEndsExact | pkg/controllers/vas/subclusterscale_reconcile.go:127-133 | when pods are needed, the loop ends after some number of iterations exactly when the base has a positive size, and then after as many as fit |
| Autoscaler.EmptyBaseNeverEnds | pkg/controllers/vas/subclusterscale_reconcile.go:127-133 | with an empty last subcluster and no template no number of iterations ends it |
| Autoscaler.GrownIs | pkg/controllers/vas/subclusterscale_reconcile.go:120-135 | the copies have new and different names; they count for the service exactly when it has a name; what was there stays |
| Autoscaler.StepAddsCopies | pkg/controllers/vas/subclusterscale_reconcile.go:120-186 | by the fields alone: a step below the target adds as many as fit, each equal to the template up to its name, or without a template to the last subcluster behind the service up to name and service name, and changes nothing that was there |
| Autoscaler.SubclusterScaleReconciler.ScaleSubcluster | pkg/controllers/vas/subclusterscale_reconcile.go:54-94 | one step equals the specified one, adds copies of the template or of the last subcluster behind the service, keeps names distinct and other services' subclusters, and never crosses the target |
| Autoscaler.NewMatches | pkg/controllers/vas/subclusterscale_reconcile.go:169-186 | a new subcluster is behind the service exactly when the service has a name |
| Autoscaler.SecondStepExact | pkg/controllers/vas/subclusterscale_reconcile.go:54-94 | a second step changes nothing exactly when the first does not add subclusters to a service without a name |
| Autoscaler.AddsForever | pkg/controllers/vas/subclusterscale_reconcile.go:54-94 | in that case k steps add k times as many subclusters and the pods behind the service stay the same |
| Autoscaler.SubclusterResizeReconciler.ResizeSubcluster | pkg/controllers/vas/subclusterresize_reconcile.go:53-101 | the backward loop equals the specified resize; the pods behind the service become the target, no size becomes negative; nothing happens without a matching subcluster |
| Autoscaler.ResizeExact | pkg/controllers/vas/subclusterresize_reconcile.go:64-94 | the pods behind the service become exactly the target, no size becomes negative and nothing else changes |
| Autoscaler.ResizedCut | pkg/controllers/vas/subclusterresize_reconcile.go:77-94 | only the last match grows; shrinking empties the last matches and cuts at most one more |
| RestartPath.CountPods | pkg/controllers/vdb/podfacts.go:705-711 | the number of pods that satisfy the condition, in any order of the map |
| RestartPath.FilterPods | pkg/controllers/vdb/podfacts.go:683-691 | exactly the pods that satisfy the condition, each once |
| RestartPath.WaitForReadOnly | pkg/controllers/vdb/onlineupgrade_reconciler.go:484-499 | passes exactly when a primary is up or every node that is up on the old image is read-only |
| RestartPath.ReconcileCluster | pkg/controllers/vdb/restart_reconcile.go:104-164 | by the fields of the facts: does nothing exactly when no pod is installed and every managed one runs; acts exactly when an installed running pod has its node down and, for k-safety 0, every installed managed pod runs and has its annotations; then kills exactly the running pods with database and annotations whose node is down (or read-only, if these are restarted), ends there when one had a process or re_ip aborts, and starts only if a database exists, by address from 11.0.1 on |
| RestartPath.Reconcile | pkg/controllers/vdb/restart_reconcile.go:73-101 | does nothing with automatic restart off; otherwise goes node by node exactly when some node is up and writable or the operator only schedules, and then over exactly the running non-transient pods with database and annotations whose node is down or to be restarted |
| RestartPath.WaitThenRestart | pkg/controllers/vdb/onlineupgrade_reconciler.go:484-522 | on the same facts, after the wait, a restart never goes node by node, kills exactly the running pods with database and annotations whose node is down, and names exactly these as hosts of start_db |
| Webhook.HasDuplicateScName | api/v1beta1/verticadb_webhook.go:494-509 | reports nothing exactly when all names differ; every report names a real duplicate |
| Webhook.FirstsSuffice | api/v1beta1/verticadb_webhook.go:670-718 | all pairs that share a service agree exactly when each agrees with the first of its service |
| Webhook.MatchingServiceNamesAreConsistent | api/v1beta1/verticadb_webhook.go:670-718 | reports nothing exactly when every two subclusters that share a service agree on all five fields; every report names a real difference |

## Left out

- Kubernetes client calls, retries on conflict and pod exec: abstract steps that succeed or abort.
- admintools, vsql and SQL: abstract effects on which pods have the database or which nodes are up.
- The configuration-file library, temporary files and the IPv6 flag of admintools.conf: the file is a host line and a map of node options.
- The steps of the online upgrade that change nothing modelled (install, add and remove database nodes, rebalance, labels, version check, installer): steps of the plan that may only abort.
- The inner steps of the offline upgrade beyond their effect on images, version and conditions.
- The commands of re_ip, its map file, and the parsing of admintools output: a restart only knows whether re_ip aborts.
- Credentials, storage and Kerberos parameters, pod specs, volumes, labels and environment, metrics, events, EULA acceptance, logrotate: thin code without an invariant across steps.
- The one-time deletion of statefulsets of operator 1.2.0, which bypasses the scale-down gate by design.
- Webhook checks of single fields: each is settled by one branch.
- 32-bit overflow of sizes and counts.
- The algorithm of Go's sort: any result of sorting is covered.
- OnlineUpgradePass.OnlineUpgradeReconciler.CheckForDeletedSubcluster: does not model the gate before each deletion, an abort between two deletions, or the deletion of services, because in the upgrade only the transient's statefulset is deleted and the transient has no service of its own.
- OnlineUpgradePass.OnlineUpgradeReconciler.DeleteTransientSts: has the same abort points missing, as it calls that check.
- Autoscaler.SubclusterScaleReconciler.ConsiderAddingSubclusters: asks for a base of positive size, because the source's loop does not end for any other (`Autoscaler.LoopEndsExact`).
- ScaleDownSafety.NothingOrphaned: holds for orderly runs only; the five ways in which other runs fail are in ScaleDownLimits.
- The ScheduleOnly policy, under which the operator neither installs nor uninstalls: the scale-down machine is about the other policies.
- Node numbers above 9999: the install fails there after it has written admintools.conf, which is one of the failures of the machine.
