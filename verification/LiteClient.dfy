/**
 The client as it runs: `RootfsTreeManager` (src/rootfstreemanager.cc), `LiteClient` (src/liteclient.cc),
 `LiteInstall` and `AkliteClient` (src/api.cc), `AkliteClientExt` (src/aklite_client_ext.cc) and the command
 `finalize` (src/cli/cli.cc), acting on the trees, the log and the app manager.  Each method is proved to take a step of
 module `Device`; `env` is the input of that step that the run amounts to.
 */
module LiteClient {
  import opened Basics
  import opened AppPlan
  import opened RootfsTree
  import opened InstallLog
  import opened ComposeAppManager
  import Selection
  import D = Device

  /** What the system does during one installation. */
  datatype SystemEnv = SystemEnv(boot: BootEnv, treeGood: bool, deployed: bool)

  class Client {
    const keep: bool
    const manager: Manager
    var trees: Trees
    var rebooted: bool
    var log: Log
    var context: Option<AppMap>
    var cleanup: bool

    /** `context` are the apps recorded with the pending target. */
    constructor (keep: bool, manager: Manager, d: D.Device, context: Option<AppMap>)
      ensures this.keep == keep && this.manager == manager && Snapshot() == d && this.context == context && cleanup
    {
      this.keep, this.manager := keep, manager;
      trees, rebooted, log, this.context, cleanup := d.trees, d.rebooted, d.log, context, true;
    }

    function Snapshot(): D.Device
      reads this
    {
      D.Device(trees, rebooted, log)
    }

    /** The log is proper, and without reset apps there is never an app to fetch only. */
    ghost predicate Valid()
      reads this, manager
    {
      Proper(log) && (manager.cfg.resetApps.None? ==> manager.toFetch == map[])
    }

    /** The apps after an installation of `apps` that updated `toUpdate`, from state `e` of the engine on. */
    ghost predicate AppsInstalled(apps: TargetApps, toUpdate: AppMap, e: EngineState)
      reads manager, manager.engine
    {
      && RemovalStep(manager.cfg, apps, e, Ok, manager.engine.Snapshot())
      && StartStep(manager.cfg, apps, toUpdate, toUpdate.Keys, e, manager.engine.Snapshot())
    }

    /** RootfsTreeManager::install. */
    method InstallRootfs(hash: Hash, boot: BootEnv, deployed: bool) returns (code: Code)
      modifies `trees, `rebooted
      ensures TreeResult(code, trees) == InstallTree(old(trees), hash, FirmwareOf(old(trees), boot), deployed)
      ensures rebooted == (old(rebooted) && !Deploys(old(trees), hash, FirmwareOf(old(trees), boot), deployed))
    {
      code := Ok;
      if trees.booted != hash && UpdateSupported(boot) {
        code := VerifyBootloader(trees, boot);
        if code != Ok {
          return;
        }
      }
      if trees.booted != hash || (PendingTree(trees).Some? && PendingTree(trees).value != hash) {
        if !deployed {
          return InstallFailed;
        }
        trees, rebooted := trees.(next := hash), false;
        code := NeedCompletion;
        if NotifyUpgrades(boot) {
          trees := trees.(upgrade := true);
        }
        if trees.booted == hash {
          code := Ok;
        }
      }
    }

    /** installPackage: ComposeAppManager::Install, whose exceptions count as failures. */
    method InstallPackage(t: Target, mode: D.InstallMode, sys: SystemEnv) returns (code: Code, ghost env: D.InstallEnv)
      modifies `trees, `rebooted, manager, manager.engine
      ensures rebooted == (old(rebooted) && !Deploys(old(trees), t.hash, env.firmware, env.deployed))
      ensures env.ready.Verified? && env.firmware == FirmwareOf(old(trees), sys.boot) && env.deployed == sys.deployed
      ensures env.create == manager.cfg.createContainersBeforeReboot
      ensures trees == InstallTree(old(trees), t.hash, env.firmware, env.deployed).trees
      ensures code == D.PackageCode(InstallTree(old(trees), t.hash, env.firmware, env.deployed).code, mode, env)
      ensures manager.toFetch in {old(manager.toFetch), map[]}
      ensures code == NeedCompletion ==> manager.engine.fetched == old(manager.engine.fetched)
      ensures mode.All? && code == Ok ==>
                AppsInstalled(t.apps, old(manager.toUpdate), old(manager.engine.Snapshot()))
    {
      ghost var fw := FirmwareOf(trees, sys.boot);
      code := InstallRootfs(t.hash, sys.boot, sys.deployed);
      TreeResultMeaning(old(trees), t.hash, fw, sys.deployed);
      ghost var apps := Ok;
      if mode.All? {
        ghost var fails;
        code, fails := manager.Install(t.apps, trees.booted != t.hash, code);
        apps := code;
        if code == Threw {
          code := InstallFailed;
        }
      }
      env := D.InstallEnv(D.Verified, fw, sys.deployed, manager.cfg.createContainersBeforeReboot, apps);
    }

    /** LiteClient::install; `apps` go with the target into the log. */
    method Install(t: Target, mode: D.InstallMode, sys: SystemEnv, apps: Option<AppMap>)
      returns (code: Code, ghost env: D.InstallEnv)
      requires Valid()
      modifies `trees, `rebooted, `log, `context, manager, manager.engine
      ensures Valid() && env.ready.Verified?
      ensures D.Outcome(code, Snapshot()) == D.LiteInstall(keep, old(Snapshot()), t, mode, env)
      ensures context == if D.EffectOf(old(trees), t.hash, mode, env).save == Some(Pending) then apps else old(context)
      ensures mode.All? && code == NeedCompletion ==> manager.engine.fetched == old(manager.engine.fetched)
      ensures mode.All? && code == Ok ==>
                AppsInstalled(t.apps, old(manager.toUpdate), old(manager.engine.Snapshot()))
    {
      var save;
      code, save, env := InstallTarget(t, mode, sys);
      SaveInstalled(t, save, apps);
    }

    /** As far as the log: the result, and how the target is to be saved. */
    method InstallTarget(t: Target, mode: D.InstallMode, sys: SystemEnv)
      returns (code: Code, save: Option<Mode>, ghost env: D.InstallEnv)
      modifies `trees, `rebooted, manager, manager.engine
      ensures env.ready.Verified? && D.Effect(code, trees, save) == D.EffectOf(old(trees), t.hash, mode, env)
      ensures rebooted == (old(rebooted) && !Deploys(old(trees), t.hash, env.firmware, env.deployed))
      ensures manager.toFetch in {old(manager.toFetch), map[]}
      ensures mode.All? && code == NeedCompletion ==> manager.engine.fetched == old(manager.engine.fetched)
      ensures mode.All? && code == Ok ==>
                AppsInstalled(t.apps, old(manager.toUpdate), old(manager.engine.Snapshot()))
    {
      code, env := InstallPackage(t, mode, sys);
      save := None;
      if code == NeedCompletion {
        if PendingTree(trees) == Some(t.hash) {
          save := Some(Pending);
        }
      } else if code == Ok {
        if mode.OstreeOnly? {
          save := Some(Pending);
          code := NeedCompletion;
        } else {
          save := Some(Current);
        }
      } else if code != DownloadFailed {
        save := Some(Plain);
      }
    }

    /** Writes the log, if there is something to write. */
    method SaveInstalled(t: Target, save: Option<Mode>, apps: Option<AppMap>)
      requires Valid()
      modifies `log, `rebooted, `context
      ensures Valid() && log == Record(keep, old(log), t, save)
      ensures rebooted == (old(rebooted) && save != Some(Pending))
      ensures context == if save == Some(Pending) then apps else old(context)
    {
      RecordKeepsProper(keep, log, t, save);
      if save.Some? {
        log := Save(keep, log, t, save.value);
        if save.value.Pending? {
          rebooted, context := false, apps;
        }
      }
    }

    /** LiteInstall::Install. */
    method LiteInstall(t: Target, mode: D.InstallMode, sys: SystemEnv)
      returns (status: D.Status, ghost env: D.InstallEnv)
      requires Valid()
      modifies `trees, `rebooted, `log, `context, manager, manager.engine
      ensures Valid()
      ensures D.Outcome(status, Snapshot()) == D.Install(keep, old(Snapshot()), t, mode, env)
      ensures mode.All? && PendingTarget(old(log)).None? ==>
                Installed(t, status, old(manager.Current()), old(manager.engine.Snapshot()))
      ensures mode.All? && status == D.Done ==>
                && AppsOf(Planned(old(manager.Current()))) <= old(manager.engine.fetched)
                && Installed(t, status, old(manager.Current()), old(manager.engine.Snapshot()))
    {
      env := D.InstallEnv(D.NotVerified, Firmware(Ok, false), true, false, Ok);
      var good := manager.VerifyTarget(sys.treeGood);
      if !good {
        return D.NotDownloaded, env;
      }
      if RequiredThrows(manager.cfg, t.apps) {
        return D.Exception, env.(ready := D.Malformed);
      }
      var code;
      code, env := Install(t, mode, sys, Recorded(manager.cfg, t.apps));
      D.EffectMeaning(old(trees), t.hash, mode, env);
      PendingAfterRecord(keep, old(log), t, D.EffectOf(old(trees), t.hash, mode, env).save);
      var pending := PendingTarget(log);
      if code == NeedCompletion {
        if pending.Some? && pending.value.hash == t.hash {
          status := if trees.booted == t.hash then D.AppsNeedCompletion else D.NeedsCompletion;
        } else {
          status := D.BootFwNeedsCompletion;
        }
      } else {
        status := if code == Ok then D.Done else if code == DownloadFailed then D.NotDownloaded else D.Failed;
      }
    }

    /** checkAndSetAppsForUpdate; the first check that does not throw is followed by a cleanup if it finds nothing to do. */
    method CheckApps(t: Target, unset: bool) returns (r: Option<bool>)
      requires Valid()
      modifies `cleanup, manager, manager.engine
      ensures Valid() && cleanup == (old(cleanup) && r.None?)
      ensures r.Some? ==>
                && Checked(t.apps, unset, old(cleanup) && !r.value, old(manager.engine.Snapshot()))
                && (r.value <==> manager.Current() != Plan(map[], map[]))
      ensures (&& r.Some? && t == CurrentTarget(log, trees.booted) && !manager.cfg.forceUpdate
               && Settled(manager.cfg, t.apps, old(manager.engine.Snapshot()))) ==> !r.value
    {
      var reasons, code, _ := manager.AppsToUpdate(t.apps, CurrentTarget(log, trees.booted).apps, unset, cleanup);
      if t == CurrentTarget(log, trees.booted) && !manager.cfg.forceUpdate {
        NothingToDoIff(manager.cfg, t.apps, old(manager.engine.Snapshot()), unset);
      }
      if reasons.None? || code == Threw {
        return None;
      }
      cleanup := false;
      return Some(reasons.value != map[]);
    }

    /** The plan and the engine after a check of `apps` in state `e`, with or without a cleanup. */
    ghost predicate Checked(apps: TargetApps, unset: bool, cleaned: bool, e: EngineState)
      reads this, manager, manager.engine
    {
      var current := CurrentTarget(log, trees.booted).apps;
      && manager.Current() == CheckedPlan(manager.cfg, apps, current, e, unset, map[])
      && CleanedStep(manager.cfg, current, cleaned, e, manager.engine.Snapshot())
    }

    /** What the end of an installation means for the apps, which started with the given plan and engine. */
    ghost predicate Installed(t: Target, status: D.Status, plan: Plan, e: EngineState)
      reads this, manager, manager.engine
    {
      && (status == D.Done ==>
            AppsInstalled(t.apps, plan.toUpdate, e))
      && (status == D.NeedsCompletion ==>
            context == Recorded(manager.cfg, t.apps) && manager.engine.fetched == e.fetched)
    }

    /** PullAndInstall as far as the installation; `spaceAndTarget` is false if a cached lack of space or an unknown
        target ends the call. */
    method PullTarget(spaceAndTarget: bool, doDownload: bool, treeOk: bool, doInstall: bool)
      returns (status: Option<D.Status>)
      modifies manager.engine
      ensures status in {None, Some(D.InstallationInProgress), Some(D.NotStarted)}
      ensures status == Some(D.InstallationInProgress) <==> PendingTarget(log).Some?
      ensures status.None? ==>
                if doDownload then DownloadStep(manager.Current(), old(manager.engine.Snapshot()), true, manager.engine.Snapshot())
                else manager.engine.Snapshot() == old(manager.engine.Snapshot())
    {
      if PendingTarget(log).Some? {
        return Some(D.InstallationInProgress);
      }
      if !spaceAndTarget {
        return Some(D.NotStarted);
      }
      if doDownload {
        var ok := manager.Download(treeOk);
        if !ok || !doInstall {
          return Some(D.NotStarted);
        }
      }
      return None;
    }

    /** After a rollback the previous target is settled, unless a cleanup in the rollback took what it needs. */
    ghost predicate RolledBack(d: D.Device, t: Target, mode: D.InstallMode, env: D.InstallEnv, cleaned: bool)
      reads this, manager, manager.engine
    {
      var old_, failed := D.Active(d).apps, D.Active(D.Install(keep, d, t, mode, env).device).apps;
      !cleaned || KeepsNeeded(manager.cfg, old_, failed) ==> Settled(manager.cfg, old_, manager.engine.Snapshot())
    }

    /** The installation in PullAndInstall, and the rollback if it fails; `found` says whether the target to roll back to
        is known.  `needed` is what the check in the rollback found. */
    method InstallOrRollBack(t: Target, mode: D.InstallMode, sys: SystemEnv, found: bool, unset: bool, back: SystemEnv)
      returns (status: D.Status, ghost env: D.PullEnv, ghost needed: bool)
      requires Valid() && PendingTarget(log).None?
      modifies `trees, `rebooted, `log, `context, `cleanup, manager, manager.engine
      ensures Valid() && (!old(cleanup) ==> !cleanup)
      ensures env.proceeds && D.Outcome(status, Snapshot()) == D.PullAndInstall(keep, old(Snapshot()), t, mode, env)
      ensures status == D.InstallRollbackOk ==> RolledBack(old(Snapshot()), t, mode, env.first, old(cleanup) && !needed)
      ensures mode.All? ==> Installed(t, status, old(manager.Current()), old(manager.engine.Snapshot()))
    {
      needed := false;
      ghost var none := D.InstallEnv(D.NotVerified, Firmware(Ok, false), true, false, Ok);
      var current := CurrentTarget(log, trees.booted);
      ghost var first, second;
      status, first := LiteInstall(t, mode, sys);
      env := D.PullEnv(true, first, found, none);
      if status != D.Failed {
        return;
      }
      if !found {
        return D.InstallRollbackFailed, env, needed;
      }
      ghost var failed := Snapshot();
      status, second, needed := RollBack(current, unset, back);
      env := D.PullEnv(true, first, found, second);
      assert D.Outcome(status, Snapshot()) == D.Install(keep, failed, current, D.All, env.second);
      status := D.RollbackStatus(status);
    }

    /** PullAndInstall; `downloaded` is the state of the engine after the download, `needed` what the check in the rollback
        found. */
    method PullAndInstall(t: Target, mode: D.InstallMode, spaceAndTarget: bool, doDownload: bool, treeOk: bool,
                          doInstall: bool, sys: SystemEnv, found: bool, unset: bool, back: SystemEnv)
      returns (status: D.Status, ghost env: D.PullEnv, ghost downloaded: EngineState, ghost needed: bool)
      requires Valid()
      modifies `trees, `rebooted, `log, `context, `cleanup, manager, manager.engine
      ensures Valid() && (!old(cleanup) ==> !cleanup)
      ensures D.Outcome(status, Snapshot()) == D.PullAndInstall(keep, old(Snapshot()), t, mode, env)
      ensures status == D.InstallRollbackOk ==> RolledBack(old(Snapshot()), t, mode, env.first, old(cleanup) && !needed)
      ensures status in {D.Done, D.NeedsCompletion} && mode.All? ==>
                && (if doDownload then DownloadStep(old(manager.Current()), old(manager.engine.Snapshot()), true, downloaded)
                    else downloaded == old(manager.engine.Snapshot()))
                && Installed(t, status, old(manager.Current()), downloaded)
    {
      needed := false;
      var stopped := PullTarget(spaceAndTarget, doDownload, treeOk, doInstall);
      downloaded := manager.engine.Snapshot();
      if stopped.Some? {
        ghost var none := D.InstallEnv(D.NotVerified, Firmware(Ok, false), true, false, Ok);
        return stopped.value, D.PullEnv(false, none, false, none), downloaded, needed;
      }
      status, env, needed := InstallOrRollBack(t, mode, sys, found, unset, back);
    }

    /** The second half of PullAndInstall: check the apps of the previous target and install it.  `needed` is what the check
        found. */
    method RollBack(t: Target, unset: bool, sys: SystemEnv)
      returns (status: D.Status, ghost env: D.InstallEnv, ghost needed: bool)
      requires Valid()
      modifies `trees, `rebooted, `log, `context, `cleanup, manager, manager.engine
      ensures Valid() && (!old(cleanup) ==> !cleanup)
      ensures D.Outcome(status, Snapshot()) == D.Install(keep, old(Snapshot()), t, D.All, env)
      ensures status == D.Done
              && (!old(cleanup) || needed || KeepsNeeded(manager.cfg, t.apps, D.Active(old(Snapshot())).apps)) ==>
                Settled(manager.cfg, t.apps, manager.engine.Snapshot())
    {
      env, needed := D.InstallEnv(D.Malformed, Firmware(Ok, false), true, false, Ok), false;
      ghost var e0, current := manager.engine.Snapshot(), CurrentTarget(log, trees.booted).apps;
      var checked := CheckApps(t, unset);
      if checked.None? {
        return D.Exception, env, needed;
      }
      needed := checked.value;
      ghost var plan, e1 := manager.Current(), manager.engine.Snapshot();
      status, env := LiteInstall(t, D.All, sys);
      if status == D.Done && (!old(cleanup) || needed || KeepsNeeded(manager.cfg, t.apps, current)) {
        assert DownloadStep(plan, e1, true, e1);
        CheckSettles(manager.cfg, t.apps, current, unset, old(cleanup) && !needed, plan, e0, e1, e1,
                     manager.engine.Snapshot());
      }
    }

    /** GetTargetToInstall, as far as the candidate. */
    method Choose(args: D.SelectArgs) returns (r: D.Choice)
      ensures r == D.Choose(Snapshot(), args)
    {
      var candidate := Selection.SelectTarget(args.targets, args.version, args.name, args.hwid);
      if !D.Known(candidate) {
        return D.Final(D.Selected(D.TufTargetNotFound, None));
      }
      var current := CurrentTarget(log, trees.booted);
      if !args.autoDowngrade && args.version == -1 && args.name == "" && candidate.value.version < current.version {
        return D.Final(D.Selected(D.NoUpdate, None));
      }
      var bad := IsRollback(log, current.name);
      if bad && current.name == candidate.value.name {
        var target := RollbackTarget(log, true);
        if target.name == UNKNOWN {
          return D.Final(D.Selected(D.RollbackTargetNotFound, None));
        }
        return D.Proposal(target, true);
      }
      return D.Proposal(candidate.value, false);
    }

    /** The running target stays, with its apps as they are or synced. */
    method Stay(args: D.SelectArgs, unset: bool) returns (s: Option<D.Selected>, ghost needed: bool)
      requires Valid()
      modifies `cleanup, manager, manager.engine
      ensures Valid() && (s.Some? || !old(cleanup) ==> !cleanup)
      ensures s.Some? ==> s.value == D.Stays(CurrentTarget(log, trees.booted), args.(appsToUpdate := needed))
      ensures s.Some? ==> CheckedFor(s.value, needed, unset, old(manager.engine.Snapshot()), old(cleanup))
    {
      needed := false;
      var current := CurrentTarget(log, trees.booted);
      var checked := CheckApps(current, unset);
      if checked.None? {
        return None, needed;
      }
      needed := checked.value;
      if args.forceSync || checked.value {
        var sync := Selection.SelectTarget(args.targets, current.version, "", args.hwid);
        return Some(D.Selected(D.UpdateSyncApps, Some(if D.Known(sync) then sync.value else current))), needed;
      }
      return Some(D.Selected(if args.offline then D.TargetAlreadyInstalled else D.NoUpdate, None)), needed;
    }

    /** The candidate is to be installed. */
    method Take(candidate: Target, rollback: bool, unset: bool) returns (s: Option<D.Selected>, ghost needed: bool)
      requires Valid()
      modifies `cleanup, manager, manager.engine
      ensures Valid() && (s.Some? || !old(cleanup) ==> !cleanup)
      ensures s.Some? ==>
                s.value == D.Selected(if rollback then D.UpdateRollback else D.UpdateNewVersion, Some(candidate))
      ensures s.Some? ==> CheckedFor(s.value, needed, unset, old(manager.engine.Snapshot()), old(cleanup))
    {
      needed := false;
      var checked := CheckApps(candidate, unset);
      if checked.None? {
        return None, needed;
      }
      needed := checked.value;
      return Some(D.Selected(if rollback then D.UpdateRollback else D.UpdateNewVersion, Some(candidate))), needed;
    }

    /** The rest of GetTargetToInstall; `None` if the check of the apps throws.  `needed` is what that check found. */
    method Decide(args: D.SelectArgs, candidate: Target, rollback: bool, unset: bool)
      returns (s: Option<D.Selected>, ghost needed: bool)
      requires Valid()
      modifies `cleanup, manager, manager.engine
      ensures Valid()
      ensures s.Some? ==> s.value == D.Decide(Snapshot(), args.(appsToUpdate := needed), candidate, rollback)
      ensures (s.Some? && s.value.target.Some?) || !old(cleanup) ==> !cleanup
      ensures s.Some? ==> CheckedFor(s.value, needed, unset, old(manager.engine.Snapshot()), old(cleanup))
    {
      needed := false;
      var bad := IsRollback(log, candidate.name);
      if rollback && bad {
        return Some(D.Selected(D.BadRollbackTarget, None)), needed;
      }
      if candidate.name == CurrentTarget(log, trees.booted).name || (bad && !args.allowBad) {
        s, needed := Stay(args, unset);
      } else {
        s, needed := Take(candidate, rollback, unset);
      }
    }

    /** The target whose apps were checked: the one to be installed or the running one. */
    ghost function CheckedApps(s: D.Selected): TargetApps
      reads this
    {
      if s.target.Some? && s.status in {D.UpdateNewVersion, D.UpdateRollback} then s.target.value.apps
      else CurrentTarget(log, trees.booted).apps
    }

    /** What the check of a selection leaves: the plan of that target, the engine as after a check, and for a settled
        running target the finding that nothing is needed. */
    ghost predicate CheckedFor(s: D.Selected, needed: bool, unset: bool, e: EngineState, first: bool)
      reads this, manager, manager.engine
    {
      && (s.target.Some? ==>
            && Checked(CheckedApps(s), unset, first && !needed, e)
            && (needed <==> manager.Current() != Plan(map[], map[])))
      && (s.status in {D.UpdateNewVersion, D.UpdateRollback} || manager.cfg.forceUpdate || !needed
          || !Settled(manager.cfg, CurrentTarget(log, trees.booted).apps, e))
    }

    method GetTargetToInstall(args: D.SelectArgs, unset: bool) returns (s: Option<D.Selected>, ghost needed: bool)
      requires Valid()
      modifies `cleanup, manager, manager.engine
      ensures Valid() && Snapshot() == old(Snapshot())
      ensures s.Some? ==> s.value == D.GetTargetToInstall(Snapshot(), args.(appsToUpdate := needed))
      ensures s.Some? && s.value.target.Some? ==> !cleanup
      ensures s.Some? ==> CheckedFor(s.value, needed, unset, old(manager.engine.Snapshot()), old(cleanup))
      ensures !old(cleanup) ==> !cleanup
    {
      needed := false;
      var choice := Choose(args);
      match choice
      case Final(selected) => s := Some(selected);
      case Proposal(t, rollback) => s, needed := Decide(args, t, rollback, unset);
    }

    method RecordFinal(t: Target, code: Code)
      requires Valid()
      modifies `log
      ensures Valid()
      ensures log == if code == Ok then Save(keep, old(log), t, Current)
                     else if code in {InstallFailed, CustomError} then Save(keep, old(log), t, Plain)
                     else old(log)
    {
      SaveKeepsProper(keep, log, t, Current);
      SaveKeepsProper(keep, log, t, Plain);
      if code == Ok {
        log := Save(keep, log, t, Current);
      } else if code == InstallFailed || code == CustomError {
        log := Save(keep, log, t, Plain);
      }
    }

    /** finalizeInstall and finalizePendingUpdate. */
    method FinalizeInstall() returns (code: Code, ghost apps: Code)
      requires Valid()
      modifies `rebooted, `log, manager.engine
      ensures Valid()
      ensures D.Outcome(code, Snapshot()) == D.Finalize(keep, old(Snapshot()), apps)
      ensures code == Ok && PendingTarget(old(log)).Some? ==>
                var started := ToStart(manager.cfg, PendingTarget(old(log)).value.apps, context);
                && RemovalStep(manager.cfg, PendingTarget(old(log)).value.apps, old(manager.engine.Snapshot()), Ok,
                               manager.engine.Snapshot())
                && StartStep(manager.cfg, PendingTarget(old(log)).value.apps, started, started.Keys,
                             old(manager.engine.Snapshot()), manager.engine.Snapshot())
    {
      apps := Ok;
      if PendingTarget(log).None? {
        return Ok, apps;
      }
      var t := PendingTarget(log).value;
      var tree := if trees.booted == t.hash then Ok else if rebooted then InstallFailed else NeedCompletion;
      rebooted := false;
      ghost var fails;
      code, fails := manager.FinalizeInstall(t.apps, context, tree);
      apps := code;
      RecordFinal(t, code);
    }

    /** CompleteInstall of the command line. */
    method CompleteInstall(unset: bool, sys: SystemEnv, found: bool)
      returns (ghost env: D.CompleteEnv)
      requires Valid()
      modifies `trees, `rebooted, `log, `context, `cleanup, manager, manager.engine
      ensures Valid()
      ensures Snapshot() == D.CompleteInstall(keep, old(Snapshot()), env)
    {
      ghost var none := D.InstallEnv(D.Malformed, Firmware(Ok, false), true, false, Ok);
      env := D.CompleteEnv(Ok, true, none, false, none);
      if PendingTarget(log).None? {
        return;
      }
      var pending := PendingTarget(log).value;
      var code;
      ghost var apps, install, needed;
      var status;
      code, apps := FinalizeInstall();
      env := env.(apps := apps);
      if code in {Ok, NeedCompletion, Threw} {
        return;
      }
      if trees.booted != pending.hash {
        var current := CurrentTarget(log, trees.booted);
        var checked := CheckApps(current, unset);
        if checked == Some(true) {
          status, install := LiteInstall(current, D.All, sys);
          env := env.(inSync := false, sync := install);
        }
      } else {
        var back := RollbackTarget(log, true);
        if back.name != UNKNOWN && found {
          status, install, needed := RollBack(back, unset, sys);
          env := env.(found := true, back := install);
        }
      }
    }

    /** The start of the daemon: finalize what is pending; it goes on unless a reboot is still due. */
    method DaemonStart() returns (goesOn: bool, ghost apps: Code)
      requires Valid()
      modifies `rebooted, `log, manager.engine
      ensures Valid()
      ensures Snapshot() == D.DaemonStart(keep, old(Snapshot()), apps)
      ensures goesOn <==> D.Finalize(keep, old(Snapshot()), apps).result != NeedCompletion
      ensures D.Finalize(keep, old(Snapshot()), apps).result == Ok && PendingTarget(old(log)).Some? ==>
                var t := PendingTarget(old(log)).value;
                context == Recorded(manager.cfg, t.apps) && Stored(manager.cfg, t.apps, old(manager.engine.Snapshot())) ==>
                  Settled(manager.cfg, t.apps, manager.engine.Snapshot())
    {
      ghost var e, pending := manager.engine.Snapshot(), PendingTarget(log);
      var code;
      code, apps := FinalizeInstall();
      goesOn := code != NeedCompletion;
      if code == Ok && pending.Some? {
        var t := pending.value;
        RecordedAppsStart(manager.cfg, t.apps);
        if context == Recorded(manager.cfg, t.apps) && Stored(manager.cfg, t.apps, e) {
          FinalizationSettles(manager.cfg, t.apps, e, manager.engine.Snapshot());
        }
      }
    }

    /** The device boots, with whatever apps that starts, and a new process begins. */
    method Boot(up: bool, confirmed: bool, running: AppMap)
      requires Valid()
      modifies `trees, `rebooted, `cleanup, manager, manager.engine`running
      ensures Valid() && cleanup && Snapshot() == D.Reboot(old(Snapshot()), up, confirmed)
      ensures manager.Current() == Plan(map[], map[])
      ensures manager.engine.Snapshot() == old(manager.engine.Snapshot()).(running := running)
    {
      trees := Trees(if up then trees.next else trees.booted, trees.next, trees.upgrade && !confirmed);
      rebooted, cleanup := true, true;
      manager.toUpdate, manager.toFetch := map[], map[];
      manager.engine.running := running;
    }

    /** What the end of an installation means for the apps of its target. */
    ghost predicate Ends(apps: TargetApps, status: D.Status)
      reads this, manager, manager.engine
    {
      && (status == D.Done ==> Settled(manager.cfg, apps, manager.engine.Snapshot()))
      && (status == D.NeedsCompletion ==>
            Stored(manager.cfg, apps, manager.engine.Snapshot()) && context == Recorded(manager.cfg, apps))
    }

    /** PullAndInstall of a target that was checked; `planned` says whether the plan at hand is that of its check, which
        started from state `e` of the engine and may have been followed by a cleanup. */
    method PullChecked(t: Target, ghost current: TargetApps, ghost planned: bool, ghost cleaned: bool, ghost e: EngineState,
                       spaceAndTarget: bool, treeOk: bool, sys: SystemEnv, found: bool, unset: bool, back: SystemEnv)
      returns (status: D.Status, ghost env: D.PullEnv)
      requires Valid() && !cleanup
      requires planned ==>
                 && manager.Current() == CheckedPlan(manager.cfg, t.apps, current, e, unset, map[])
                 && CheckStep(manager.cfg, t.apps, current, cleaned, manager.Current(), e, manager.engine.Snapshot())
      modifies `trees, `rebooted, `log, `context, `cleanup, manager, manager.engine
      ensures Valid() && !cleanup
      ensures D.Outcome(status, Snapshot()) == D.PullAndInstall(keep, old(Snapshot()), t, D.All, env)
      ensures status == D.InstallRollbackOk ==>
                Settled(manager.cfg, D.Active(old(Snapshot())).apps, manager.engine.Snapshot())
      ensures planned ==> Ends(t.apps, status)
    {
      ghost var plan, e1, e2, needed := manager.Current(), manager.engine.Snapshot(), manager.engine.Snapshot(), false;
      status, env, e2, needed := PullAndInstall(t, D.All, spaceAndTarget, true, treeOk, true, sys, found, unset, back);
      if planned && status == D.Done {
        CheckSettles(manager.cfg, t.apps, current, unset, cleaned, plan, e, e1, e2, manager.engine.Snapshot());
      }
      if planned && status == D.NeedsCompletion {
        CheckStores(manager.cfg, t.apps, current, unset, cleaned, plan, e, e1, e2);
      }
    }

    /** The check of a selection was for the apps of the target it selected, and the cleanup after it, if this was the
        first check and it found nothing to do, kept them. */
    ghost predicate WellChecked(chosen: D.Selected, current: Target, first: bool, needed: bool) {
      && chosen.target.Some?
      && (chosen.status in {D.UpdateNewVersion, D.UpdateRollback} || chosen.target.value.apps == current.apps)
      && (!first || needed || KeepsNeeded(manager.cfg, chosen.target.value.apps, current.apps))
    }

    /** One round of the daemon up to the reboot; `status` is that of the installation, if there is one, and `None` if a
        check throws. */
    method DaemonRound(targets: seq<Target>, hwid: string, unset: bool, spaceAndTarget: bool, treeOk: bool,
                       sys: SystemEnv, found: bool, back: SystemEnv, ghost boot: D.CycleEnv)
      returns (status: Option<Option<D.Status>>, reboot: bool, ghost env: D.CycleEnv)
      requires Valid()
      modifies `trees, `rebooted, `log, `context, `cleanup, manager, manager.engine
      ensures Valid() && (!old(cleanup) ==> !cleanup)
      ensures env == boot.(targets := targets, hwid := hwid, appsToUpdate := env.appsToUpdate, pull := env.pull)
      ensures status.Some? ==>
                var chosen := D.Chosen(old(Snapshot()), env);
                && (status.value.None? <==> chosen.target.None?)
                && (chosen.target.None? ==> Snapshot() == old(Snapshot()))
                && (chosen.target.Some? ==>
                      D.Outcome(status.value.value, Snapshot()) == D.Pulled(keep, old(Snapshot()), env))
                && (reboot <==> D.Reboots(keep, old(Snapshot()), env))
      ensures status == Some(Some(D.InstallRollbackOk)) ==>
                Settled(manager.cfg, D.Active(old(Snapshot())).apps, manager.engine.Snapshot())
      ensures var chosen := D.Chosen(old(Snapshot()), env);
              status.Some? && status.value.Some?
              && WellChecked(chosen, D.Active(old(Snapshot())), old(cleanup), env.appsToUpdate) ==>
                Ends(chosen.target.value.apps, status.value.value)
    {
      env, reboot := boot.(targets := targets, hwid := hwid), false;
      ghost var e, needed, pull := manager.engine.Snapshot(), false, env.pull;
      var args := D.SelectArgs(targets, hwid, -1, "", false, false, false, false, false);
      var selected;
      selected, needed := GetTargetToInstall(args, unset);
      env := env.(appsToUpdate := needed);
      if selected.None? {
        return None, reboot, env;
      }
      assert D.DaemonArgs(env) == args.(appsToUpdate := needed);
      if selected.value.target.None? {
        return Some(None), reboot, env;
      }
      ghost var current := CurrentTarget(log, trees.booted);
      ghost var planned := WellChecked(selected.value, current, old(cleanup), needed);
      var result;
      result, pull := PullChecked(selected.value.target.value, current.apps, planned, old(cleanup) && !needed, e,
                                  spaceAndTarget, treeOk, sys, found, unset, back);
      env := env.(pull := pull);
      assert D.Chosen(old(Snapshot()), env) == selected.value;
      return Some(Some(result)), result in {D.NeedsCompletion, D.BootFwNeedsCompletion}, env;
    }

    /** Convergence of the daemon: after a round that installed what it selected, the next one, offered the same targets,
        selects nothing. */
    method NextRoundSelectsNothing(targets: seq<Target>, hwid: string, unset: bool, spaceAndTarget: bool, treeOk: bool,
                                   sys: SystemEnv, found: bool, back: SystemEnv, ghost boot: D.CycleEnv)
      returns (status: Option<Option<D.Status>>, next: Option<D.Selected>, ghost env: D.CycleEnv)
      requires Valid()
      modifies `trees, `rebooted, `log, `context, `cleanup, manager, manager.engine
      ensures Valid()
      ensures env == boot.(targets := targets, hwid := hwid, appsToUpdate := env.appsToUpdate, pull := env.pull)
      ensures status.Some? && status.value.Some? ==>
                && D.Chosen(old(Snapshot()), env).target.Some?
                && Snapshot() == D.Pulled(keep, old(Snapshot()), env).device
                && status.value.value == D.Pulled(keep, old(Snapshot()), env).result
      ensures var chosen := D.Chosen(old(Snapshot()), env);
              status == Some(Some(D.Done)) && next.Some? && chosen.status in {D.UpdateNewVersion, D.UpdateRollback}
              && !manager.cfg.forceUpdate
              && WellChecked(chosen, D.Active(old(Snapshot())), old(cleanup), env.appsToUpdate) ==>
                next.value.target.None?
    {
      next := None;
      ghost var d := Snapshot();
      var reboot;
      ghost var needed;
      status, reboot, env := DaemonRound(targets, hwid, unset, spaceAndTarget, treeOk, sys, found, back, boot);
      ghost var after := Snapshot();
      if status == Some(Some(D.Done)) {
        if D.Chosen(d, env).status in {D.UpdateNewVersion, D.UpdateRollback} {
          D.RoundLeavesNothing(keep, d, env);
        }
        next, needed := SelectAgain(targets, hwid, unset, env, after);
      }
    }

    /** A round of the daemon and, if it leaves an installation to be completed, the reboot and the start after it. */
    method RoundAndReboot(targets: seq<Target>, hwid: string, unset: bool, spaceAndTarget: bool, treeOk: bool,
                          sys: SystemEnv, found: bool, back: SystemEnv, up: bool, confirmed: bool, running: AppMap,
                          ghost boot: D.CycleEnv)
      returns (status: Option<Option<D.Status>>, ghost env: D.CycleEnv)
      requires Valid()
      modifies `trees, `rebooted, `log, `context, `cleanup, manager, manager.engine
      ensures Valid()
      ensures env == boot.(targets := targets, hwid := hwid, appsToUpdate := env.appsToUpdate, pull := env.pull, up := up,
                           confirmed := confirmed, apps := env.apps)
      ensures status == Some(Some(D.NeedsCompletion)) ==>
                var d, chosen := old(Snapshot()), D.Chosen(old(Snapshot()), env);
                && chosen.target.Some? && D.Pulled(keep, d, env).result == D.NeedsCompletion
                && Snapshot() == D.Cycle(keep, d, env)
                && (Completes(keep, d, env) && WellChecked(chosen, D.Active(d), old(cleanup), env.appsToUpdate) ==>
                      Settled(manager.cfg, chosen.target.value.apps, manager.engine.Snapshot()))
    {
      ghost var d := Snapshot();
      var reboot;
      ghost var apps;
      status, reboot, env := DaemonRound(targets, hwid, unset, spaceAndTarget, treeOk, sys, found, back,
                                         boot.(up := up, confirmed := confirmed));
      if status == Some(Some(D.NeedsCompletion)) {
        apps := BootAndStart(up, confirmed, running);
        D.RoundBeforeStart(keep, d, env, apps);
        env := env.(apps := apps);
      }
    }

    /** A reboot and the start of the daemon after it. */
    method BootAndStart(up: bool, confirmed: bool, running: AppMap) returns (ghost apps: Code)
      requires Valid()
      modifies `trees, `rebooted, `log, `cleanup, manager, manager.engine
      ensures Valid()
      ensures Snapshot() == D.DaemonStart(keep, D.Reboot(old(Snapshot()), up, confirmed), apps)
      ensures D.Finalize(keep, D.Reboot(old(Snapshot()), up, confirmed), apps).result == Ok
              && PendingTarget(old(log)).Some? && old(Ends(PendingTarget(log).value.apps, D.NeedsCompletion)) ==>
                Settled(manager.cfg, PendingTarget(old(log)).value.apps, manager.engine.Snapshot())
    {
      Boot(up, confirmed, running);
      var goesOn;
      goesOn, apps := DaemonStart();
    }

    /** Convergence over a reboot: after a round that left an installation to be completed, the reboot, and a start of the
        daemon that completes it, the next round selects nothing. */
    method RoundAfterRebootSelectsNothing(targets: seq<Target>, hwid: string, unset: bool, spaceAndTarget: bool,
                                          treeOk: bool, sys: SystemEnv, found: bool, back: SystemEnv, up: bool,
                                          confirmed: bool, running: AppMap, ghost boot: D.CycleEnv)
      returns (status: Option<Option<D.Status>>, next: Option<D.Selected>, ghost env: D.CycleEnv)
      requires Valid()
      modifies `trees, `rebooted, `log, `context, `cleanup, manager, manager.engine
      ensures Valid()
      ensures env == boot.(targets := targets, hwid := hwid, appsToUpdate := env.appsToUpdate, pull := env.pull, up := up,
                           confirmed := confirmed, apps := env.apps)
      ensures status == Some(Some(D.NeedsCompletion)) ==>
                var d, chosen := old(Snapshot()), D.Chosen(old(Snapshot()), env);
                && chosen.target.Some? && D.Pulled(keep, d, env).result == D.NeedsCompletion
                && Snapshot() == D.Cycle(keep, d, env)
                && (&& Completes(keep, d, env) && WellChecked(chosen, D.Active(d), old(cleanup), env.appsToUpdate)
                    && chosen.status in {D.UpdateNewVersion, D.UpdateRollback} && !manager.cfg.forceUpdate && next.Some? ==>
                      next.value.target.None?)
    {
      next := None;
      ghost var d := Snapshot();
      ghost var needed;
      status, env := RoundAndReboot(targets, hwid, unset, spaceAndTarget, treeOk, sys, found, back, up, confirmed, running,
                                    boot);
      if status == Some(Some(D.NeedsCompletion)) {
        if D.Chosen(d, env).status in {D.UpdateNewVersion, D.UpdateRollback} && Completes(keep, d, env) {
          D.RebootLeavesNothing(keep, d, env);
        }
        next, needed := SelectAgain(targets, hwid, unset, env, Snapshot());
      }
    }

    /** A selection by the daemon in a settled state in which only apps could be out of sync. */
    method SelectAgain(targets: seq<Target>, hwid: string, unset: bool, ghost env: D.CycleEnv, ghost d: D.Device)
      returns (next: Option<D.Selected>, ghost needed: bool)
      requires Valid() && d == Snapshot() && env.targets == targets && env.hwid == hwid
      modifies `cleanup, manager, manager.engine
      ensures Valid() && Snapshot() == d
      ensures (&& !manager.cfg.forceUpdate && Settled(manager.cfg, D.Active(d).apps, old(manager.engine.Snapshot()))
               && D.Chosen(d, env.(appsToUpdate := false)).target.None?
               && D.Chosen(d, env.(appsToUpdate := true)).status !in {D.UpdateNewVersion, D.UpdateRollback}
               && next.Some?) ==> next.value.target.None?
    {
      var args := D.SelectArgs(targets, hwid, -1, "", false, false, false, false, false);
      next, needed := GetTargetToInstall(args, unset);
      assert D.DaemonArgs(env.(appsToUpdate := needed)) == args.(appsToUpdate := needed);
    }
  }

  /** The start of the daemon after the reboot completes the installation. */
  ghost predicate Completes(keep: bool, d: D.Device, env: D.CycleEnv) {
    && D.Chosen(d, env).target.Some?
    && D.Finalize(keep, D.Reboot(D.Pulled(keep, d, env).device, env.up, env.confirmed), env.apps).result == Ok
  }
}
