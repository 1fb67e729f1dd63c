# Verified model of aktualizr-lite

aktualizr-lite is an over-the-air update agent: it selects a target, fetches and deploys its root file system tree and
its compose apps, reboots, finalizes, and rolls back what failed.  This project models the parts in which it decides,
stores, deletes and recovers, and proves what they guarantee.  `dafny verify dfyconfig.toml` checks all of it.

Calls into code that is foreign to the repository (docker, skopeo, composectl, ostree, the bootloader, the network,
the disk) are inputs or arbitrary choices, so every statement holds for all their outcomes.

| module | models |
|---|---|
| `AppStore`, `RestorableAppEngine` | the content-addressed app store: mark-and-sweep `prune`, the fetched check that deletes what it finds broken, and `fetch` |
| `UpdateSize` | the uint64 totals of an update and its admission |
| `AppPlan`, `ComposeAppManager` | which apps to update, fetch, stop, run, remove and keep; check, download, verify, install, finalize |
| `InstallLog` | the installation log and the questions asked of it |
| `RootfsTree` | tree deployment and the boot firmware guard |
| `Selection` | filtering, sorting and choosing targets; offline bundles |
| `Device`, `LiteClient` | the update and rollback state machine; the client, the command `finalize` and the daemon as methods that take its steps |
| `BearerAuth`, `Uri`, `BlobDownload` | parsers and the bounded, hashed blob writer of the registry client |
| `FetchedCache` | the cache of fetched apps beside the store of composectl |
| `Basics`, `Strings` | shared helpers |

Code that changes state is a class or a method with loops, specified by functions and relations on plain values; what
the source promises is proved about those as lemmas, over all inputs and over all runs.

## What holds, and what does not quite

- Prune needs one pass exactly if no stored blob is marked only through an unreadable image index
  (`AppStore.PruneStableIff`); otherwise a second pass finishes (`AppStore.TwoPassesSettle`).
- Asking whether an app is fetched can make another app unfetched, exactly if the first thing that is wrong with the
  asked app is the size of a stored layer that the other depends on (`AppStore.CheckFrame`, `AppStore.CheckFrameExample`).
  That two apps disagree on a size is not enough (`AppStore.HarmlessDisagreement`).
- `getPreciseAppUpdateSize` does not reject negative numbers.  One of them passes exactly if the true sum is negative,
  and the total is then 2^64 too large (`UpdateSize.GuardedSumExact`, `UpdateSize.NegativeArchive`).
- A check that finds nothing to do may be followed by a cleanup for the current target.  It can delete apps that the
  checked target requires; the update then does not converge in one cycle, exactly if the store is pruned and the current
  target does not require them (`AppPlan.ConvergenceAfterCleanup`, `AppPlan.CleanupLosesResetApp`).
- A cleanup can throw after it has removed disabled apps, so deletion does not happen only on success
  (`ComposeAppManager.ThrowingFinalization`).  It throws exactly if it prunes and a required entry is malformed, the store
  cannot read a required app, or prune fails from outside; other calls that do not succeed delete nothing
  (`AppPlan.FailuresDeleteNothing`).
- A pending record can come to name a tree that is neither booted nor deployed, exactly by a reboot that comes up in
  another tree while the pending one is booted (`Device.PendingInvariant`).  Only the command `finalize` leads there: if it
  cannot pull the apps of the pending target, it keeps the record, and the rollback may deploy the old tree before it
  fails as well (`Device.PendingTreeBootsNext`, `Device.StrandedExample`).
- The version of the daemon can drop without a rollback: if a reboot for the firmware, or any reboot between rounds, comes
  up in a tree left deployed by an earlier failure (`Device.LeftoverExample`) or by a power cut between deployment and
  record (`Device.CutExample`), or if the apps of a new tree do not start while the current row has the same tree
  (`Device.StartFailsExample`).  `Device.VersionDropsIff` and `Device.EventLowers` say exactly when.
- The Bearer prefix is looked up from the end, so the challenge is read correctly exactly if `bearer` does not occur
  again (`BearerAuth.ChallengeIff`).

## Model

| member | source | states |
|---|---|---|
| `AppStore.PruneSafety` | src/docker/restorableappengine.cc:287-417 | wherever prune stops, at its end or by an exception while marking, a shortlisted app that was completely fetched still is, whatever it shares and whatever broken apps sit beside it |
| `AppStore.PruneIntersects` | src/docker/restorableappengine.cc:287-417 | after a full prune the fetched apps are exactly the fetched apps of the shortlist |
| `AppStore.PruneStableIff` | src/docker/restorableappengine.cc:287-417 | a second prune runs to its end, and it changes nothing and asks for no docker prune if and only if the first pass leaves no blob marked only on the way to an unreadable image |
| `AppStore.ReadableStoreIsStable` | src/docker/restorableappengine.cc:287-417 | if every existing image index leads to a readable manifest, one pass is enough and another runs to its end |
| `AppStore.TwoPassesSettle` | src/docker/restorableappengine.cc:287-417 | whatever is in the store, a third pass runs to its end and has nothing to do |
| `AppStore.PassesDoNotAbort` | src/docker/restorableappengine.cc:291-392 | after a pass that ran to its end the next one does too |
| `AppStore.SecondPass` | src/docker/restorableappengine.cc:291-411 | the second pass marks exactly what the first marked firmly and leaves the directories alone |
| `AppStore.StrayExample` | src/docker/restorableappengine.cc:291-411 | a store with one unreadable manifest does need the second pass |
| `AppStore.VerdictSound` | src/docker/restorableappengine.cc:577-739 | the fetched check answers yes exactly for completely fetched apps, and deletes a blob only if its size is not the one the app declares |
| `AppStore.DropsIff` | src/docker/restorableappengine.cc:637-739 | the check deletes a blob exactly if the images before it are fetched, index, manifest and config of its image and the layers before it are present, and its size is not the declared one |
| `AppStore.CheckFrame` | src/docker/restorableappengine.cc:577-739 | checking one app keeps a different fetched app fetched if and only if no layer the other depends on is stored with a size other than declared, with everything before it in the checked app in order |
| `AppStore.AgreeingCheckFrame` | src/docker/restorableappengine.cc:577-739 | if manifests agree on the sizes of shared blobs, checking one app never makes another unfetched |
| `AppStore.YesChangesNothing` | src/docker/restorableappengine.cc:577-739 | a positive answer deletes nothing and repeats |
| `AppStore.CheckFrameExample` | src/docker/restorableappengine.cc:637-739 | two apps that disagree on a size: checking one breaks the other |
| `AppStore.HarmlessDisagreement` | src/docker/restorableappengine.cc:637-739 | two apps that disagree on a size, and checking one leaves the other fetched, because a config is missing |
| `AppStore.FetchFrame` | src/docker/restorableappengine.cc:101-137 | if manifests agree on the sizes of shared blobs, a fetch of one app, failed or not, leaves every other fetched app fetched |
| `RestorableAppEngine.Engine.IsAppFetched` | src/docker/restorableappengine.cc:577-635 | the answer is whether the app was completely fetched, when there is an exception instead of an answer, and the store afterwards is the specified one |
| `RestorableAppEngine.Engine.AreAppImagesFetched` | src/docker/restorableappengine.cc:637-739 | the same for the walk over images, manifests, configs and layers; it throws exactly if an image that is not a pinned URI comes before any that is not fetched |
| `RestorableAppEngine.Engine.Fetch` | src/docker/restorableappengine.cc:101-137 | when a fetch succeeds; it leaves the app's directory exactly if it does, touches no other directory, replaces no blob, creates the directory of blobs with the first of them, and keeps other fetched apps fetched if sizes agree |
| `RestorableAppEngine.Engine.Mark` | src/docker/restorableappengine.cc:291-392 | the mark phase throws exactly on an unreadable shortlisted app; otherwise it collects exactly the blobs the shortlist leads to and removes exactly the other directories |
| `RestorableAppEngine.Engine.SweepBlobs` | src/docker/restorableappengine.cc:399-411 | removes exactly the unmarked blobs |
| `RestorableAppEngine.Engine.Prune` | src/docker/restorableappengine.cc:287-417 | the store after prune, when it aborts, when it prunes docker, and safety of every shortlisted fetched app |
| `UpdateSize.GuardedSumExact` | src/docker/restorableappengine.cc:957-990 | what the overflow guards accept and return, in terms of the true integer sum, for all int64 numbers |
| `UpdateSize.GetAppUpdateSize` | src/docker/restorableappengine.cc:875-922 | returns the true sum over missing layers; throws exactly if a missing layer has no acceptable size or the sum is not a uint64 |
| `UpdateSize.GetPreciseAppUpdateSize` | src/docker/restorableappengine.cc:936-991 | when both totals are returned, and that they are the true sums exactly if no missing layer has a negative number |
| `UpdateSize.NegativeArchive` | src/docker/restorableappengine.cc:936-991 | an archive size of -5 is accepted as 2^64 - 5 |
| `UpdateSize.CheckAvailableStorage` | src/docker/restorableappengine.cc:993-1032 | an update is admitted exactly if both parts and, on a shared volume, their true sum fit, where the store and the shared volume get a second reading after temporary files were removed; these are removed once for each of the two that fails its first reading |
| `AppPlan.EnabledIsRequired` | src/composeappmanager.cc:743-776 | every app that is to run is among those that are to be kept, at the same URI |
| `AppPlan.NothingToDoIff` | src/composeappmanager.cc:221-296 | an unforced check of the current target finds nothing to do if and only if every enabled app runs at its URI and every needed app is stored |
| `AppPlan.DownloadCompletes` | src/composeappmanager.cc:298-340 | after the check and a successful download, all that is enabled, and with reset apps all that is required, is stored |
| `AppPlan.CycleSettles` | src/composeappmanager.cc:382-480 | after check, download and install every enabled app runs and nothing needed was deleted |
| `AppPlan.Convergence` | src/composeappmanager.cc:221-480 | after a successful cycle an unforced check of the now current target reports nothing |
| `AppPlan.ConvergenceOverReboot` | src/composeappmanager.cc:482-573 | the same when the install waits for a reboot and finalization completes it |
| `AppPlan.RecordedAppsStart` | src/api.cc:680-692 | the apps that an install records let finalization start every enabled app |
| `AppPlan.ConvergenceAfterCleanup` | src/liteclient.cc:845-861 | if the check is followed by a cleanup, convergence holds exactly if the cleanup does not prune or the current target requires the same apps |
| `AppPlan.CheckSettles` | src/liteclient.cc:845-861 | a check, with a cleanup that keeps what is needed if it found nothing, a download and an install leave every enabled app running and everything needed stored, on an engine with any faults |
| `AppPlan.CleanupLosesResetApp` | src/liteclient.cc:845-861 | a stored reset app of a new target is lost to that cleanup |
| `AppPlan.StoredAppIsLostOnlyUnrequired` | src/composeappmanager.cc:382-573 | over any sequence of install and finalize calls a stored app disappears only in a call that succeeds or whose prune throws, and whose target and config do not require it |
| `AppPlan.DirIsLostOnlyDisabled` | src/composeappmanager.cc:557-622 | an app directory disappears only in a call that succeeds or whose cleanup throws, and whose target and config do not enable it |
| `AppPlan.FailuresDeleteNothing` | src/composeappmanager.cc:382-555 | calls that do not succeed and for which a cleanup would not throw delete nothing |
| `ComposeAppManager.Manager.GetAppsToUpdate` | src/composeappmanager.cc:221-267 | exactly the enabled apps that are new, changed, not running or not stored, each with the first reason that applies; throws exactly if the current target has a scalar for an enabled app |
| `ComposeAppManager.Manager.GetAppsToFetch` | src/composeappmanager.cc:778-804 | exactly the required apps that are not stored, although apps already looked at are skipped |
| `ComposeAppManager.Manager.CheckForAppsToUpdate` | src/composeappmanager.cc:269-296 | the plan and the reported reasons, for either value of the flag the forced path leaves unset, and when it throws |
| `ComposeAppManager.Manager.AppsToUpdate` | src/liteclient.cc:845-861 | the check, and what the cleanup after an empty one may remove |
| `ComposeAppManager.Manager.Download` | src/composeappmanager.cc:298-340 | success stores everything planned; failure takes away at most planned apps |
| `ComposeAppManager.Manager.VerifyTarget` | src/composeappmanager.cc:353-373 | accepts only if everything planned is stored |
| `ComposeAppManager.Manager.CleanUp` | src/composeappmanager.cc:557-622 | removes disabled apps and prunes to the required ones, and throws exactly on a malformed required entry or a throwing prune |
| `ComposeAppManager.Manager.Install` | src/composeappmanager.cc:382-480 | what each result code means for running apps, directories, stored apps and the plan, also when stop, remove or prune fail, and what a cleanup that throws has already deleted |
| `ComposeAppManager.Manager.FinalizeInstall` | src/composeappmanager.cc:482-555 | the same for finalization, which starts only the recorded apps and stops at the first failure, and when it throws |
| `ComposeAppManager.ThrowingFinalization` | src/composeappmanager.cc:482-622 | a target with a malformed app: finalization throws and has removed a directory |
| `ComposeAppManager.UpdateAndCheckAgain` | src/composeappmanager.cc:269-480 | running a whole update with these methods and checking again finds nothing |
| `InstallLog.PendingAfterSave` | src/liteclient.cc:386-395 | which target is pending after each kind of save |
| `InstallLog.CurrentAfterSave` | src/liteclient.cc:797-836 | which target is the running one after each kind of save |
| `InstallLog.FailingAfterSave` | src/helpers.cc:103-119 | a never installed target stays failing until it is saved as current |
| `InstallLog.PlainSaveFails` | src/liteclient.cc:828-832 | when marking a target as failing makes it count as such |
| `InstallLog.KnownButNotInstalled` | src/helpers.cc:103-119 | exactly the logged targets no target of whose name was installed |
| `InstallLog.KnownLocalTarget` | src/helpers.cc:82-101 | whether such a target has the name and is not of the pending tree |
| `InstallLog.IsRollback` | src/liteclient.cc:910-914 | the two together are the test for a bad target |
| `InstallLog.RollbackTargetIsGood` | src/liteclient.cc:249-259 | a target to roll back to is never a bad one |
| `RootfsTree.ParseDecimal` | src/rootfstreemanager.cc:274-282 | a printed uint64 is read back |
| `RootfsTree.VersionLineRoundTrip` | src/bootloader/bootloaderlite.cc:220-231 | the version is read back from a line that was written with it |
| `RootfsTree.TreeResultMeaning` | src/rootfstreemanager.cc:175-213 | what success, a needed reboot and failure say about booted and next tree |
| `RootfsTree.FirmwareGuard` | src/rootfstreemanager.cc:250-309 | under rollback protection the upgrade flag is raised exactly if the tree is deployed and its firmware version is a number not below the current one and not literally the current one |
| `RootfsTree.FirmwareGuardNumbers` | src/bootloader/bootloaderlite.cc:33-91 | for numeric versions: raised exactly for a higher one under protection, for any different one without |
| `Selection.FilterTargets` | src/api.cc:193-219 | exactly the matching targets, with multiplicity, by ascending version |
| `Selection.DefaultChoice` | src/api.cc:75-96 | the default choice is a highest version for the hardware id, and there is none exactly if no target has it |
| `Selection.MissingApps` | src/api.cc:421-430 | whether a required app is missing in the bundle, given the shortlist |
| `Selection.CompleteIff` | src/api.cc:408-434 | looking only at shortlisted apps of the whole target decides whether the trimmed target is complete |
| `Selection.GetAvailableTargets` | src/api.cc:370-459 | offers exactly the complete targets, trimmed and in order, and when it throws; without apps exactly those whose commit is there |
| `Selection.OfferedIsClosed` | src/api.cc:393-458 | an offered target has its commit and, after trimming, every app it requires in the bundle |
| `Selection.CompleteIsOffered` | src/api.cc:393-458 | every target with that content is offered |
| `Selection.OfflineDefaultChoice` | src/api.cc:75-96 | so the default choice offline is a complete target of the highest version for the hardware id |
| `Device.PendingInvariant` | src/liteclient.cc:186-247 | over every run of installs, power cuts, reboots, fallbacks and finalizations a pending record always names a booted or deployed tree if and only if no step is a reboot that comes up in another tree while the pending one is booted |
| `Device.StepKeepsInvIff` | src/liteclient.cc:186-247 | the same of one step, in terms of the device and its inputs |
| `Device.PendingTreeBootsNext` | src/cli/cli.cc:326-392 | in every run without the one command that strands a record, the pending tree is the one that boots next throughout, reboots and fallbacks included |
| `Device.StepBootsPendingIff` | src/cli/cli.cc:360-379 | that command, exactly: finalization cannot pull the apps of the booted pending target, and the rollback deploys another tree before an app fails |
| `Device.StrandedExample` | src/cli/cli.cc:360-379 | a run in which the record is left behind |
| `Device.RebootedAfterRecord` | src/liteclient.cc:186-247 | a reboot that no finalization has seen, with a record pending, took place while that very record was pending |
| `Device.FinalizationWaits` | src/cli/cli.cc:385-387 | between an install that needs a reboot and that reboot, finalization asks for it and changes nothing, whatever reboots went before |
| `Device.ResultMeaning` | src/api.cc:669-711 | NeedsCompletion, AppsNeedCompletion and BootFwNeedsCompletion are returned exactly when the other tree is deployed and recorded, the same tree runs and the target is recorded, a firmware update holds it back and nothing changed |
| `Device.UnguardedInstall` | src/aklite_client_ext.cc:186-191 | without the check for a pending installation the pending invariant breaks |
| `Device.HonestRollback` | src/aklite_client_ext.cc:244-270 | after InstallRollbackOk the previous target is current, nothing is pending, its tree boots next, and the attempted target is on record, failing exactly if it never was installed |
| `Device.RollbackIsSound` | src/aklite_client_ext.cc:68-107 | the branch for a bad rollback target is unreachable, and a rollback goes to a different target that was installed |
| `Device.NoReselection` | src/aklite_client_ext.cc:95-128 | over every run, a failing target that no step installed is selected neither as new version nor for rollback while nothing is pending |
| `Device.StepKeepsFailing` | src/liteclient.cc:186-218 | one step of any kind keeps a target failing unless it reports its installation |
| `Device.ChosenVersion` | src/aklite_client_ext.cc:44-66 | a new version is a highest one for the hardware id and not below the running one |
| `Device.BootMeaning` | src/liteclient.cc:186-247 | what runs after the reboot and finalization of an install, for every outcome |
| `Device.CycleRuns` | src/daemon.cc:34-61 | exactly which target runs after a round of the daemon, in terms of the device and the inputs |
| `Device.VersionDropsIff` | src/daemon.cc:34-61 | a round lowers the running version if and only if it takes a target of lower version, boots a leftover tree of lower version, or a new tree comes up without its apps on the tree of a current row of lower version |
| `Device.VersionDrops` | src/daemon.cc:34-61 | the first of these three is a selected rollback or the sync of a target of version -1 |
| `Device.StartFailsExample` | src/daemon.cc:34-61 | the running version goes 1, 2, 1 because apps do not start |
| `Device.LeftoverExample` | src/daemon.cc:34-61 | a firmware reboot comes up in a leftover tree of unknown version |
| `Device.CutExample` | src/daemon.cc:12-64 | so does a power cut after deployment |
| `Device.StartMeaning` | src/daemon.cc:24-30 | which target runs after the daemon has started and finalized |
| `Device.CutMeaning` | src/daemon.cc:12-64 | exactly which target runs after a power cut in a round, in its installation, in its rollback or after its record, in terms of the device and the inputs |
| `Device.EventLowers` | src/daemon.cc:12-64 | exactly when a round, a cut round, a reboot or a new start of the daemon lowers the running version, in terms of the device and the inputs |
| `Device.RunIsSteady` | src/daemon.cc:12-64 | between any two events of such a run, what is pending is booted and boots next |
| `Device.VersionMonotonicity` | src/daemon.cc:12-64 | over every run of rounds, power cuts, reboots and new starts of the daemon the version never drops, unless a rollback or a target of version -1 is selected, apps of a new tree do not start while the current row has that tree, or a tree without a record comes up |
| `Device.NothingMoreToInstall` | src/aklite_client_ext.cc:30-173 | after a selected target was installed, the same targets offer nothing more |
| `Device.RebootLeavesNothing` | src/daemon.cc:12-64 | the same after the reboot and a finalization that completes it |
| `LiteClient.Client.InstallRootfs` | src/rootfstreemanager.cc:175-213 | the code that deploys, undeploys or does nothing is the specified tree step |
| `LiteClient.Client.Install` | src/liteclient.cc:797-836 | installing and writing the log is the specified step, with what success means for the apps |
| `LiteClient.Client.LiteInstall` | src/api.cc:669-711 | verification, installation and the status are the specified step |
| `LiteClient.Client.PullAndInstall` | src/aklite_client_ext.cc:182-270 | the guarded install with its rollback is the specified step; what success and a needed reboot mean for the apps; after a successful rollback every enabled app of the previous target runs and is stored, unless a first cleanup took it |
| `LiteClient.Client.GetTargetToInstall` | src/aklite_client_ext.cc:30-173 | the selection is the specified one and changes neither trees nor log |
| `LiteClient.Client.FinalizeInstall` | src/liteclient.cc:186-247 | finalization is the specified step, with what success means for the apps, of which it starts those the installation recorded |
| `LiteClient.Client.CompleteInstall` | src/cli/cli.cc:326-392 | the command that finalizes, and then syncs or rolls back, is the specified step |
| `LiteClient.Client.DaemonRound` | src/daemon.cc:34-61 | a round of the daemon is the specified one, when it asks for a reboot, and that after a rollback, an installation or a sync the apps are settled, and stored and recorded if a reboot is due, in first rounds too unless the first cleanup took what the target needs |
| `LiteClient.Client.NextRoundSelectsNothing` | src/daemon.cc:34-61 | after a round that installed what it selected, the next one with the same targets selects nothing, unless updates are forced or the first cleanup took what the target needs |
| `LiteClient.Client.RoundAfterRebootSelectsNothing` | src/daemon.cc:12-64 | the same over the reboot and the start of the daemon, with the apps that the installation recorded |
| `LiteClient.Client.DaemonStart` | src/daemon.cc:24-30 | the start of the daemon is the specified step, it goes on unless a reboot is due, and completing a stored target settles its apps |
| `BearerAuth.ReadParams` | src/docker/docker.cc:134-169 | the loop ends on every string, moving to later positions, with the specified parameters |
| `BearerAuth.Parse` | src/docker/docker.cc:127-190 | the parts and the mandatory parameters of a challenge, and when it throws; the method is the function that the round trips are about |
| `BearerAuth.ParamsRoundTrip` | src/docker/docker.cc:134-169 | parsing a printed list gives back every parameter, with commas and `=` inside quotes and blanks around |
| `BearerAuth.HeaderRoundTrip` | src/docker/docker.cc:127-169 | the same for the whole header |
| `BearerAuth.AuthRoundTrip` | src/docker/docker.cc:170-189 | parsing a printed header gives back realm, service and scope |
| `BearerAuth.ChallengeIff` | src/docker/docker.cc:128-132 | the challenge is what follows the prefix exactly if the prefix does not occur again |
| `BlobDownload.Download.Write` | src/docker/docker.cc:267-288 | takes a chunk exactly if it fits, and never lets the file outgrow the expected size |
| `BlobDownload.Download.Reset` | src/docker/docker.cc:289-294 | rewinds without truncating |
| `BlobDownload.DownloadBlob` | src/docker/docker.cc:304-357 | on success the file is exactly the last response, of the expected size and digest; with a working disk success is characterised; nothing is ever written past the expected size |
| `FetchedCache.StepKeepsCache` | src/composeapp/appengine.cc:16-197 | each operation, failed or not, keeps every cached URI completely stored |
| `FetchedCache.CacheAgreesWithStore` | src/composeapp/appengine.cc:16-197 | so does every interleaving, and every positive answer is right |
| `FetchedCache.Engine.FetchApp` | src/composeapp/appengine.cc:16-60 | a fetch takes such a step |
| `FetchedCache.Engine.RemoveApp` | src/composeapp/appengine.cc:62-80 | a removal takes such a step |
| `FetchedCache.Engine.PruneApps` | src/composeapp/appengine.cc:115-167 | a prune takes such a step and unlists only apps that share a URI with one that is not shortlisted |
| `FetchedCache.Engine.IsAppFetched` | src/composeapp/appengine.cc:169-197 | a check takes such a step |
| `Uri.DigestRoundTrip` | src/docker/docker.cc:61-72 | a lower-case sha256 digest is read back |
| `Uri.ParsePrinted` | src/docker/docker.cc:16-53 | a printed URI parses to itself, as a factory app exactly if its name has two parts |
| `Uri.PrintParsed` | src/docker/docker.cc:16-53 | the converse: a text that parses is the printed form of what it parses to, up to the case of the digest |

## Assumptions

- The installation log: a saved target is its last row; saving as current leaves nothing pending and records the
  installation; saving as pending makes it the only pending row; saving as failing clears both flags.  Whether the last
  forgets an earlier installation is left open.
- The current target is the current row if that is of the booted tree, else the last row of that tree.
- `OstreeManager::install` fails without effect or deploys the tree.  Finalization succeeds on the wanted tree, fails
  after a reboot into another one, and otherwise asks for the reboot; only a reboot after the last deployment or pending
  record counts.  After a fallback the failed tree stays deployed.
- The daemon is built with AUTO_DOWNGRADE off, its default (CMakeLists.txt:25), so that it selects no lower version.
- A reboot keeps app directories and stored apps; which apps it starts is an input.
- The app engine throws in prune exactly on a shortlisted app it cannot read, as `RestorableAppEngine.Engine.Prune`
  does, or on a failure from outside.
- An app engine operation on one app does not change another.  For the restorable store `AppStore.AgreeingCheckFrame`
  and `AppStore.FetchFrame` prove this of the fetched check and of fetching if manifests agree on sizes.
- In a shortlist for prune every name occurs once and is the name in the URI, and the stored compose file is the
  archived one.
- composectl reports an app as complete only if the store lists it with all its blobs, and drops only blobs that no
  listed app needs.

## Left out

- AkliteClientExt::Rollback: a rollback that the user asks for writes a kind of log record whose effect is in the storage code, which is not part of this model.
- RestorableAppEngine.Engine.Fetch: what the registry and skopeo deliver is an input, so success does not say that the delivered content is complete.
- BlobDownload.DownloadBlob: takes closing the file as successful, and sizes as unbounded integers.
- getDockerStoreSizeForAppUpdate: one checked multiplication.
- The cached lack of space in PullAndInstall, which only ends the call early.
- checkAppUpdateSize and the choice between the two size computations.
- Signatures, expiry and root rotation of TUF metadata, and the metadata of bundles.
- HTTP, sqlite, ostree, docker and process calls, events, callbacks, logging and descriptions.
- The `.version` and `.state` files of the engine in src/docker/composeappengine.cc.
- Percentages and reserved space in src/storage/stat.cc; available bytes are an input.
