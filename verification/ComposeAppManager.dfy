/**
 `ComposeAppManager` (src/composeappmanager.cc) as it runs: a plan kept in two fields, carried out against an app
 engine any of whose operations may fail.
 */
module ComposeAppManager {
  import opened Basics
  import opened AppPlan

  datatype RunResult = Started | PullFailed | NotStarted

  /**
   The interface `AppEngine` (src/appengine.h).  Every method decides arbitrarily whether it fails; `faulty` says
   whether the operations that report nothing (stop, remove, prune) may fail too.
   */
  class Engine {
    const faulty: bool
    var dirs: set<string>
    var running: AppMap
    var fetched: set<App>
    var broken: set<App>

    constructor (faulty: bool, e: EngineState)
      ensures Snapshot() == e && this.faulty == faulty
    {
      this.faulty, dirs, running, fetched, broken := faulty, e.dirs, e.running, e.fetched, e.broken;
    }

    function Snapshot(): EngineState
      reads this
    {
      EngineState(dirs, running, fetched, broken)
    }

    method Fetch(app: App) returns (ok: bool)
      modifies `fetched, `broken
      ensures ok ==> fetched == old(fetched) + {app}
      ensures !ok ==> old(fetched) - {app} <= fetched <= old(fetched)
      ensures old(broken) - {app} <= broken <= old(broken) + {app}
    {
      ok := *;
      var keep: bool, breaks: bool := *, *;
      broken := if breaks then broken + {app} else broken - {app};
      fetched := if ok then fetched + {app} else if keep then fetched else fetched - {app};
    }

    method Verify(app: App) returns (ok: bool) {
      ok := *;
    }

    method Stop(name: string)
      modifies `running
      ensures running == old(running) - {name} || (faulty && running == old(running))
    {
      var fails: bool := *;
      if !faulty || !fails {
        running := running - {name};
      }
    }

    /** Installs the app and, with `start`, runs it. */
    method Install(app: App, start: bool) returns (r: RunResult)
      modifies `running, `dirs
      ensures SameExcept(old(Snapshot()), {app.name}, Snapshot()) && old(dirs) <= dirs
      ensures r.Started? ==> app.name in dirs
      ensures r.Started? && start ==> Runs(Snapshot(), app.name, app.uri)
    {
      r := *;
      var left: Option<string>, made: bool := *, *;
      if r.Started? || made {
        dirs := dirs + {app.name};
      }
      if r.Started? && start {
        running := running[app.name := app.uri];
      } else if left.Some? {
        running := running[app.name := left.value];
      } else {
        running := running - {app.name};
      }
    }

    method Remove(name: string)
      modifies `running, `dirs
      ensures SameExcept(old(Snapshot()), {name}, Snapshot()) && dirs <= old(dirs) && running.Keys <= old(running.Keys)
      ensures !faulty ==> name !in dirs && name !in running
    {
      var fails: bool := *;
      if !faulty || !fails {
        running, dirs := running - {name}, dirs - {name};
      }
    }

    /** `AppStore.PruneIntersects` and `RestorableAppEngine.Engine.Prune` are this contract for the restorable store,
        which throws exactly on an app of the shortlist that it cannot read. */
    method Prune(shortlist: set<App>) returns (threw: bool)
      modifies `fetched, `broken
      ensures old(fetched) * shortlist <= fetched <= old(fetched) && broken <= old(broken)
      ensures old(broken) * shortlist != {} ==> threw
      ensures !faulty ==> (threw <==> old(broken) * shortlist != {})
      ensures !faulty && !threw ==> fetched == old(fetched) * shortlist
    {
      var fails: bool, left: set<App> := *, *;
      threw := broken * shortlist != {} || (faulty && fails);
      fetched := if threw || faulty then fetched * (shortlist + left) else fetched * shortlist;
      broken := broken * (shortlist + left);
    }
  }

  class Manager {
    const cfg: Config
    const engine: Engine
    var toUpdate: AppMap
    var toFetch: AppMap

    constructor (cfg: Config, engine: Engine)
      ensures this.cfg == cfg && this.engine == engine && toUpdate == map[] && toFetch == map[]
    {
      this.cfg, this.engine, toUpdate, toFetch := cfg, engine, map[], map[];
    }

    function Current(): Plan
      reads this
    {
      Plan(toUpdate, toFetch)
    }

    /** The loop of getAppsToUpdate; `ready` are the enabled apps that need no update.  Says whether it throws. */
    method GetAppsToUpdate(target: TargetApps, current: TargetApps)
      returns (threw: bool, apps: AppMap, reasons: map<string, Reason>, ready: set<string>)
      requires !cfg.forceUpdate
      ensures threw <==> LookupThrows(cfg, target, current)
      ensures !threw ==>
                && apps == ToUpdate(cfg, target, current, engine.Snapshot())
                && ready == Enabled(cfg, target).Keys - apps.Keys
                && reasons.Keys == apps.Keys
                && forall name | name in apps ::
                     UpdateReason(current, engine.Snapshot(), App(name, apps[name])) == Some(reasons[name])
    {
      var enabled := Enabled(cfg, target);
      threw, apps, reasons, ready := false, map[], map[], {};
      var todo := enabled.Keys;
      ghost var e := engine.Snapshot();
      while todo != {}
        invariant todo <= enabled.Keys
        invariant forall name | name in enabled && name !in todo && name in current :: !current[name].Scalar?
        invariant apps == map name | name in enabled && name !in todo
                                     && UpdateReason(current, e, App(name, enabled[name])).Some? :: enabled[name]
        invariant ready == (enabled.Keys - todo) - apps.Keys
        invariant reasons.Keys == apps.Keys
        invariant forall name | name in apps :: UpdateReason(current, e, App(name, apps[name])) == Some(reasons[name])
      {
        var name :| name in todo;
        todo := todo - {name};
        var lookup, reason := CheckApp(current, App(name, enabled[name]));
        if !lookup {
          return true, map[], map[], {};
        }
        if reason.Some? {
          apps, reasons := apps[name := enabled[name]], reasons[name := reason.value];
        } else {
          ready := ready + {name};
        }
      }
    }

    /** One round of that loop; `lookup` is false if it throws. */
    method CheckApp(current: TargetApps, app: App) returns (lookup: bool, reason: Option<Reason>)
      ensures lookup <==> (app.name in current ==> !current[app.name].Scalar?)
      ensures lookup ==> reason == UpdateReason(current, engine.Snapshot(), app)
    {
      if app.name !in current || current[app.name] == NoUri(true) {
        return true, Some(NewApp);
      }
      if current[app.name].Scalar? {
        return false, None;
      }
      if app.uri != (if current[app.name].AppUri? then current[app.name].uri else "") {
        return true, Some(NewVersion);
      }
      if !Runs(engine.Snapshot(), app.name, app.uri) {
        return true, Some(NotRunning);
      }
      if app !in engine.fetched {
        return true, Some(NotFetched);
      }
      return true, None;
    }

    /** The loop of getAppsToFetch. */
    method GetAppsToFetch(target: TargetApps, checkStore: bool, checked: AppMap, ready: set<string>)
      returns (apps: AppMap)
      requires forall name | name in ready :: name in Enabled(cfg, target) && name !in checked
                                              && App(name, Enabled(cfg, target)[name]) in engine.fetched
      ensures apps == ToFetch(cfg, target, engine.Snapshot(), checked, checkStore)
    {
      var required := Required(cfg, target);
      EnabledIsRequired(cfg, target);
      if !checkStore {
        return required;
      }
      apps := map[];
      var todo := required.Keys;
      while todo != {}
        invariant todo <= required.Keys
        invariant apps == map name | name in required && name !in todo && name !in checked
                                     && App(name, required[name]) !in engine.fetched :: required[name]
      {
        var name :| name in todo;
        todo := todo - {name};
        if name !in checked && name !in ready && App(name, required[name]) !in engine.fetched {
          apps := apps[name := required[name]];
        }
      }
    }

    /** The first half of checkForAppsToUpdate: the apps to update and why; `unset` is read by the forced path. */
    method CheckUpdates(target: TargetApps, current: TargetApps, unset: bool)
      returns (threw: bool, reasons: map<string, Reason>, ready: set<string>, checkStore: bool)
      modifies `toUpdate
      ensures threw <==> !cfg.forceUpdate && LookupThrows(cfg, target, current)
      ensures threw ==> toUpdate == old(toUpdate)
      ensures !threw ==>
                && toUpdate == ToUpdate(cfg, target, current, engine.Snapshot())
                && checkStore == (unset || !cfg.forceUpdate)
                && (forall name | name in ready ::
                      name in Enabled(cfg, target) && name !in toUpdate
                      && App(name, Enabled(cfg, target)[name]) in engine.fetched)
                && reasons.Keys == toUpdate.Keys
                && (forall name | name in reasons ::
                      reasons[name] == UpdateReasonOf(cfg, current, engine.Snapshot(), App(name, toUpdate[name])))
    {
      if !cfg.forceUpdate {
        var apps;
        threw, apps, reasons, ready := GetAppsToUpdate(target, current);
        checkStore := true;
        if !threw {
          toUpdate := apps;
        }
      } else {
        toUpdate := Enabled(cfg, target);
        reasons := map name | name in toUpdate :: ForcedUpdate;
        threw, ready, checkStore := false, {}, unset;
      }
    }

    /** `unset` is the value the forced path reads without having set it.  `None` if it throws. */
    method CheckForAppsToUpdate(target: TargetApps, current: TargetApps, unset: bool)
      returns (r: Option<map<string, Reason>>)
      modifies this
      ensures r.None? <==> CheckThrows(cfg, target, current)
      ensures r.None? ==> toFetch == old(toFetch)
      ensures r.None? ==> toUpdate in {old(toUpdate), ToUpdate(cfg, target, current, engine.Snapshot())}
      ensures r.Some? ==>
                && Current() == CheckedPlan(cfg, target, current, engine.Snapshot(), unset, old(toFetch))
                && r.value == Reasons(cfg, current, engine.Snapshot(), Current())
    {
      ghost var e := engine.Snapshot();
      var threw, reasons, ready, checkStore := CheckUpdates(target, current, unset);
      if threw {
        return None;
      }
      if cfg.resetApps.Some? {
        if RequiredThrows(cfg, target) {
          return None;
        }
        toFetch := GetAppsToFetch(target, checkStore, toUpdate, ready);
      }
      AllReasons(cfg, current, e, Current(), reasons);
      reasons := (map name | name in toFetch :: ResetAppNotFetched) + reasons;
      return Some(reasons);
    }

    /** LiteClient::appsToUpdate: a check and, if it finds nothing and `cleanup` is set, a cleanup for the current target. */
    method AppsToUpdate(target: TargetApps, current: TargetApps, unset: bool, cleanup: bool)
      returns (r: Option<map<string, Reason>>, code: Code, ghost fails: bool)
      modifies this, engine
      ensures r.None? <==> CheckThrows(cfg, target, current)
      ensures r.Some? ==> Current() == CheckedPlan(cfg, target, current, old(engine.Snapshot()), unset, old(toFetch))
      ensures r.Some? ==> r.value == Reasons(cfg, current, old(engine.Snapshot()), Current())
      ensures r.None? ==> code == Threw && toFetch == old(toFetch)
      ensures r.None? || r.value != map[] || !cleanup ==> engine.Snapshot() == old(engine.Snapshot())
      ensures r.Some? ==>
                (code == Threw <==>
                 r.value == map[] && cleanup
                 && CleanUpThrows(cfg.dockerPrune && cfg.resetApps.Some?, cfg, current, old(engine.Snapshot()), fails))
      ensures code in {Ok, Threw} && (fails ==> engine.faulty)
      ensures CleanStep(cfg, current, old(engine.Snapshot()), engine.Snapshot())
      ensures SameExcept(old(engine.Snapshot()), old(engine.dirs) - Enabled(cfg, current).Keys, engine.Snapshot())
      ensures r.Some? ==>
                && (r.value == map[] <==> Current() == Plan(map[], map[]))
                && CleanedStep(cfg, current, cleanup && r.value == map[], old(engine.Snapshot()), engine.Snapshot())
      ensures r == Some(map[]) && cleanup && code == Ok && !engine.faulty ==>
                CleanupStep(cfg, current, old(engine.Snapshot()), engine.Snapshot())
    {
      r := CheckForAppsToUpdate(target, current, unset);
      code, fails := if r.None? then Threw else Ok, false;
      NoReasons(cfg, current, engine.Snapshot(), Current());
      if cleanup && r == Some(map[]) {
        code, fails := CleanUp(current, false);
      }
    }

    /** `treeOk` is the result of the download of the root file system tree. */
    method Download(treeOk: bool) returns (ok: bool)
      modifies engine
      ensures !treeOk ==> !ok && engine.Snapshot() == old(engine.Snapshot())
      ensures DownloadStep(Current(), old(engine.Snapshot()), ok, engine.Snapshot())
    {
      if !treeOk {
        return false;
      }
      ok := true;
      var apps := Planned(Current());
      var todo := apps.Keys;
      while todo != {} && ok
        invariant todo <= apps.Keys
        invariant engine.dirs == old(engine.dirs) && engine.running == old(engine.running)
        invariant ok ==> engine.fetched == old(engine.fetched) + (set name | name in apps && name !in todo :: App(name, apps[name]))
        invariant !ok ==> old(engine.fetched) - AppsOf(apps) <= engine.fetched <= old(engine.fetched) + AppsOf(apps)
        decreases todo
      {
        var name :| name in todo;
        ok := engine.Fetch(App(name, apps[name]));
        todo := todo - {name};
      }
    }

    /** Says yes only if everything that was planned is stored. */
    method VerifyTarget(treeOk: bool) returns (ok: bool)
      ensures ok ==> treeOk && AppsOf(Planned(Current())) <= engine.fetched
    {
      if !treeOk {
        return false;
      }
      var apps := Planned(Current());
      var todo := apps.Keys;
      while todo != {}
        invariant todo <= apps.Keys
        invariant forall name | name in apps && name !in todo :: App(name, apps[name]) in engine.fetched
      {
        var name :| name in todo;
        todo := todo - {name};
        if App(name, apps[name]) !in engine.fetched {
          return false;
        }
        var good := engine.Verify(App(name, apps[name]));
        if !good {
          return false;
        }
      }
      ok := true;
    }

    /** stopDisabledComposeApps. */
    method StopDisabled(target: TargetApps)
      modifies engine
      ensures engine.dirs == old(engine.dirs) && engine.fetched == old(engine.fetched) && engine.broken == old(engine.broken)
      ensures SameExcept(old(engine.Snapshot()), old(engine.dirs) - Enabled(cfg, target).Keys, engine.Snapshot())
      ensures !engine.faulty ==>
                forall name | name in engine.dirs && name !in Enabled(cfg, target) :: name !in engine.running
    {
      var disabled := engine.dirs - Enabled(cfg, target).Keys;
      StopAll(disabled);
    }

    method StopAll(names: set<string>)
      modifies engine
      ensures engine.dirs == old(engine.dirs) && engine.fetched == old(engine.fetched) && engine.broken == old(engine.broken)
      ensures SameExcept(old(engine.Snapshot()), names, engine.Snapshot())
      ensures engine.running.Keys <= old(engine.running).Keys
      ensures !engine.faulty ==> engine.running.Keys !! names
    {
      var todo := names;
      while todo != {}
        invariant todo <= names
        invariant engine.dirs == old(engine.dirs) && engine.fetched == old(engine.fetched) && engine.broken == old(engine.broken)
        invariant SameExcept(old(engine.Snapshot()), names, engine.Snapshot())
        invariant engine.running.Keys <= old(engine.running).Keys
        invariant !engine.faulty ==> engine.running.Keys !! (names - todo)
      {
        var name :| name in todo;
        engine.Stop(name);
        todo := todo - {name};
      }
    }

    /** removeDisabledComposeApps. */
    method RemoveDisabled(target: TargetApps)
      modifies engine
      ensures engine.fetched == old(engine.fetched) && engine.broken == old(engine.broken) && engine.dirs <= old(engine.dirs)
      ensures engine.running.Keys <= old(engine.running.Keys)
      ensures SameExcept(old(engine.Snapshot()), old(engine.dirs) - Enabled(cfg, target).Keys, engine.Snapshot())
      ensures !engine.faulty ==>
                && engine.dirs <= Enabled(cfg, target).Keys
                && engine.running.Keys !! (old(engine.dirs) - Enabled(cfg, target).Keys)
    {
      var disabled := engine.dirs - Enabled(cfg, target).Keys;
      var todo := disabled;
      while todo != {}
        invariant todo <= disabled
        invariant engine.fetched == old(engine.fetched) && engine.broken == old(engine.broken) && engine.dirs <= old(engine.dirs)
        invariant engine.running.Keys <= old(engine.running.Keys)
        invariant SameExcept(old(engine.Snapshot()), disabled, engine.Snapshot())
        invariant !engine.faulty ==> engine.dirs !! (disabled - todo) && engine.running.Keys !! (disabled - todo)
      {
        var name :| name in todo;
        engine.Remove(name);
        todo := todo - {name};
      }
    }

    /** getAppsToFetch and prune; `fails` if prune throws although it could read every app. */
    method PruneToRequired(target: TargetApps) returns (threw: bool, ghost fails: bool)
      modifies engine`fetched, engine`broken
      ensures threw <==> CleanUpThrows(true, cfg, target, old(engine.Snapshot()), fails)
      ensures fails ==> engine.faulty
      ensures old(engine.fetched) * AppsOf(Required(cfg, target)) <= engine.fetched <= old(engine.fetched)
      ensures engine.broken <= old(engine.broken)
      ensures RequiredThrows(cfg, target) ==> engine.fetched == old(engine.fetched)
      ensures !threw && !engine.faulty ==> engine.fetched == old(engine.fetched) * AppsOf(Required(cfg, target))
    {
      fails := false;
      if RequiredThrows(cfg, target) {
        return true, fails;
      }
      threw := engine.Prune(AppsOf(Required(cfg, target)));
      fails := threw && old(engine.broken) * AppsOf(Required(cfg, target)) == {};
    }

    /** handleRemovedApps and, with `pruneImages`, the prune after it. */
    method CleanUp(target: TargetApps, pruneImages: bool) returns (code: Code, ghost fails: bool)
      requires pruneImages ==> cfg.dockerPrune
      modifies engine
      ensures code in {Ok, Threw} && (fails ==> engine.faulty)
      ensures code == Threw <==>
                CleanUpThrows(pruneImages || (cfg.dockerPrune && cfg.resetApps.Some?), cfg, target,
                              old(engine.Snapshot()), fails)
      ensures CleanStep(cfg, target, old(engine.Snapshot()), engine.Snapshot())
      ensures RequiredThrows(cfg, target) ==> engine.fetched == old(engine.fetched)
      ensures engine.dirs <= old(engine.dirs) && engine.running.Keys <= old(engine.running.Keys)
      ensures SameExcept(old(engine.Snapshot()), old(engine.dirs) - Enabled(cfg, target).Keys, engine.Snapshot())
      ensures !engine.faulty ==>
                && engine.dirs <= Enabled(cfg, target).Keys
                && engine.running.Keys !! (old(engine.dirs) - Enabled(cfg, target).Keys)
      ensures code == Ok && !engine.faulty ==>
                engine.fetched == (if pruneImages || (cfg.dockerPrune && cfg.resetApps.Some?)
                                   then old(engine.fetched) * AppsOf(Required(cfg, target)) else old(engine.fetched))
    {
      RemoveDisabled(target);
      var threw := false;
      fails := false;
      if cfg.dockerPrune && cfg.resetApps.Some? {
        threw, fails := PruneToRequired(target);
        if threw {
          return Threw, fails;
        }
      }
      if pruneImages {
        threw, fails := PruneToRequired(target);
        if threw {
          return Threw, fails;
        }
      }
      return Ok, fails;
    }

    /** The loop of install: a failure is reported, but the other apps are installed all the same. */
    method InstallApps(start: bool, code: Code) returns (r: Code)
      requires code in {Ok, NeedCompletion}
      modifies engine
      ensures engine.fetched == old(engine.fetched) && engine.broken == old(engine.broken) && old(engine.dirs) <= engine.dirs
      ensures SameExcept(old(engine.Snapshot()), toUpdate.Keys, engine.Snapshot())
      ensures r in {code, DownloadFailed, InstallFailed}
      ensures r == code ==> toUpdate.Keys <= engine.dirs
      ensures r == code && start ==> forall name | name in toUpdate :: Runs(engine.Snapshot(), name, toUpdate[name])
    {
      r := code;
      var todo := toUpdate.Keys;
      while todo != {}
        invariant todo <= toUpdate.Keys
        invariant engine.fetched == old(engine.fetched) && engine.broken == old(engine.broken) && old(engine.dirs) <= engine.dirs
        invariant SameExcept(old(engine.Snapshot()), toUpdate.Keys, engine.Snapshot())
        invariant r in {code, DownloadFailed, InstallFailed}
        invariant r == code ==> toUpdate.Keys - todo <= engine.dirs
        invariant r == code && start ==>
                    forall name | name in toUpdate && name !in todo :: Runs(engine.Snapshot(), name, toUpdate[name])
      {
        var name :| name in todo;
        todo := todo - {name};
        ghost var before := engine.Snapshot();
        var res := engine.Install(App(name, toUpdate[name]), start);
        assert forall other | other != name :: other in before.running <==> other in engine.running;
        if !res.Started? {
          r := if res.PullFailed? then DownloadFailed else InstallFailed;
        }
      }
    }

    /** The stops before the tree is touched. */
    method StopBefore(target: TargetApps, otherTree: bool)
      modifies engine
      ensures engine.dirs == old(engine.dirs) && engine.fetched == old(engine.fetched) && engine.broken == old(engine.broken)
      ensures SameExcept(old(engine.Snapshot()), (old(engine.dirs) - Enabled(cfg, target).Keys) + toUpdate.Keys,
                         engine.Snapshot())
      ensures !engine.faulty ==>
                forall name | name in engine.dirs && name !in Enabled(cfg, target) :: name !in engine.running
      ensures !engine.faulty && (otherTree || cfg.stopAppsBeforeUpdate) ==> engine.running.Keys !! toUpdate.Keys
    {
      StopDisabled(target);
      if otherTree || cfg.stopAppsBeforeUpdate {
        StopAll(toUpdate.Keys);
      }
    }

    /** The part of install that follows a tree installation that did not fail. */
    method InstallAndCleanUp(target: TargetApps, tree: Code) returns (code: Code, ghost fails: bool)
      requires tree in {Ok, NeedCompletion}
      modifies engine
      ensures CallStep(Call(cfg, target, fails, code), old(engine.Snapshot()), engine.Snapshot())
      ensures fails ==> engine.faulty
      ensures code == InstallCode(tree, cfg.createContainersBeforeReboot, code)
      ensures code in {Ok, Threw} ==> tree == Ok
      ensures code == Ok ==>
                StartStep(cfg, target, toUpdate, toUpdate.Keys, old(engine.Snapshot()), engine.Snapshot())
      ensures code in {Ok, Threw} && !engine.faulty ==>
                && ThrownStep(cfg, target, toUpdate.Keys, old(engine.Snapshot()), engine.Snapshot())
                && engine.running.Keys !! (old(engine.dirs) - Enabled(cfg, target).Keys)
      ensures code == Ok && !engine.faulty ==>
                engine.fetched == (if cfg.dockerPrune then old(engine.fetched) * AppsOf(Required(cfg, target))
                                   else old(engine.fetched))
      ensures code == NeedCompletion && cfg.createContainersBeforeReboot ==> toUpdate.Keys <= engine.dirs
      ensures tree == NeedCompletion && !cfg.createContainersBeforeReboot ==>
                engine.Snapshot() == old(engine.Snapshot())
      ensures forall name | name in engine.running && name !in old(engine.running) :: name in toUpdate
    {
      code, fails := tree, false;
      var pruneImages := cfg.dockerPrune;
      var justInstall := code == NeedCompletion;
      if !justInstall || cfg.createContainersBeforeReboot {
        code := InstallApps(!justInstall, code);
      } else {
        pruneImages := false;
      }
      if code == Ok {
        code, fails := CleanUp(target, pruneImages);
      }
    }

    /**
     `tree` is what RootfsTreeManager::install returns, `otherTree` whether the target's tree is not the booted one.
     */
    method Install(target: TargetApps, otherTree: bool, tree: Code) returns (code: Code, ghost fails: bool)
      requires tree in {Ok, NeedCompletion, InstallFailed}
      modifies this, engine
      ensures tree == InstallFailed ==> code == InstallFailed && Current() == old(Current())
      ensures CallStep(Call(cfg, target, fails, code), old(engine.Snapshot()), engine.Snapshot())
      ensures fails ==> engine.faulty
      ensures code == Threw ==> tree == Ok && Current() == old(Current())
      ensures code == Threw && !engine.faulty ==>
                ThrownStep(cfg, target, old(toUpdate).Keys, old(engine.Snapshot()), engine.Snapshot())
      ensures code != Threw && tree != InstallFailed ==> Current() == Plan(map[], map[])
      ensures code == Ok ==>
                tree == Ok && StartStep(cfg, target, old(toUpdate), old(toUpdate).Keys, old(engine.Snapshot()), engine.Snapshot())
      ensures code == Ok && !engine.faulty ==>
                ExactStep(cfg, target, old(toUpdate).Keys, old(engine.Snapshot()), engine.Snapshot())
      ensures code == InstallCode(tree, cfg.createContainersBeforeReboot, code)
      ensures code == NeedCompletion && cfg.createContainersBeforeReboot ==> old(toUpdate).Keys <= engine.dirs
      ensures !engine.faulty ==>
                forall name | name in old(engine.dirs) && name !in Enabled(cfg, target) && name !in old(toUpdate) ::
                  name !in engine.running
      ensures !engine.faulty && otherTree && (tree == InstallFailed || !cfg.createContainersBeforeReboot) && tree != Ok ==>
                engine.running.Keys !! old(toUpdate).Keys
    {
      StopBefore(target, otherTree);
      code, fails := tree, false;
      if code == InstallFailed {
        return;
      }
      code, fails := InstallAndCleanUp(target, tree);
      if code != Threw {
        toUpdate, toFetch := map[], map[];
      }
    }

    /** The loop of finalizeInstall: the first failure ends it. */
    method StartApps(target: TargetApps, context: Option<AppMap>) returns (code: Code)
      modifies engine
      ensures engine.fetched == old(engine.fetched) && engine.broken == old(engine.broken) && old(engine.dirs) <= engine.dirs
      ensures SameExcept(old(engine.Snapshot()), ToStart(cfg, target, context).Keys, engine.Snapshot())
      ensures code in {Ok, DownloadFailed, CustomError}
      ensures ToStart(cfg, target, context) == map[] ==> code == Ok
      ensures code == Ok ==>
                && ToStart(cfg, target, context).Keys <= engine.dirs
                && forall name | name in ToStart(cfg, target, context) ::
                     Runs(engine.Snapshot(), name, ToStart(cfg, target, context)[name])
    {
      var enabled := Enabled(cfg, target);
      var todo := enabled.Keys;
      ghost var starts := ToStart(cfg, target, context);
      while todo != {}
        invariant todo <= enabled.Keys
        invariant engine.fetched == old(engine.fetched) && engine.broken == old(engine.broken) && old(engine.dirs) <= engine.dirs
        invariant SameExcept(old(engine.Snapshot()), starts.Keys, engine.Snapshot())
        invariant starts.Keys - todo <= engine.dirs
        invariant forall name | name in starts && name !in todo :: Runs(engine.Snapshot(), name, starts[name])
      {
        var name :| name in todo;
        todo := todo - {name};
        if context.Some? && !(name in context.value && context.value[name] == enabled[name]) {
          continue;
        }
        assert name in starts;
        var res := engine.Install(App(name, enabled[name]), true);
        if !res.Started? {
          return if res.PullFailed? then DownloadFailed else CustomError;
        }
      }
      return Ok;
    }

    /** `tree` is what OstreeManager::finalizeInstall returns. */
    method FinalizeInstall(target: TargetApps, context: Option<AppMap>, tree: Code) returns (code: Code, ghost fails: bool)
      requires tree in {Ok, NeedCompletion, InstallFailed}
      modifies engine
      ensures CallStep(Call(cfg, target, fails, code), old(engine.Snapshot()), engine.Snapshot())
      ensures fails ==> engine.faulty
      ensures tree == Ok && ToStart(cfg, target, context) == map[] ==> code in {Ok, Threw}
      ensures code == Threw && !engine.faulty ==>
                ThrownStep(cfg, target, ToStart(cfg, target, context).Keys, old(engine.Snapshot()), engine.Snapshot())
      ensures tree != Ok ==> code == tree && engine.Snapshot() == old(engine.Snapshot())
      ensures code == FinalCode(tree, code)
      ensures tree == Ok && !engine.faulty ==>
                forall name | name in old(engine.dirs) && name !in Enabled(cfg, target) :: name !in engine.running
      ensures code == Ok ==>
                StartStep(cfg, target, ToStart(cfg, target, context), ToStart(cfg, target, context).Keys, old(engine.Snapshot()), engine.Snapshot())
      ensures code == Ok && !engine.faulty ==>
                ExactStep(cfg, target, ToStart(cfg, target, context).Keys, old(engine.Snapshot()), engine.Snapshot())
    {
      code, fails := tree, false;
      if code == Ok {
        StopDisabled(target);
        code := StartApps(target, context);
        if code == Ok {
          code, fails := CleanUp(target, cfg.dockerPrune);
        }
      }
    }
  }

  /**
   A whole update that needs no reboot, and the check of the next round: if every step succeeds, that check finds
   nothing to do.
   */
  method UpdateAndCheckAgain(m: Manager, target: TargetApps, current: TargetApps, unset: bool, treeOk: bool,
                             otherTree: bool)
    returns (done: bool, again: Option<map<string, Reason>>)
    requires !m.cfg.forceUpdate && (m.cfg.resetApps.None? ==> m.toFetch == map[])
    modifies m, m.engine
    ensures done ==> again == Some(map[]) && Settled(m.cfg, target, m.engine.Snapshot())
  {
    done, again := false, None;
    ghost var e0 := m.engine.Snapshot();
    var reasons := m.CheckForAppsToUpdate(target, current, unset);
    if reasons.None? {
      return;
    }
    ghost var plan := m.Current();
    var downloaded := m.Download(treeOk);
    if !downloaded {
      return;
    }
    ghost var e1 := m.engine.Snapshot();
    var verified := m.VerifyTarget(treeOk);
    if !verified {
      return;
    }
    var code, _ := m.Install(target, otherTree, Ok);
    if code != Ok {
      return;
    }
    CycleSettles(m.cfg, target, current, unset, plan, e0, e1, m.engine.Snapshot());
    NothingToDoIff(m.cfg, target, m.engine.Snapshot(), unset);
    again := m.CheckForAppsToUpdate(target, target, unset);
    done := true;
  }

  /** A target with one malformed app, and the directory of an app it does not have. */
  method ThrowingFinalization() returns (code: Code, before: set<string>, after: set<string>)
    ensures code == Threw && before == {"old"} && after == {}
  {
    var cfg := Config(Some({"m"}), None, false, true, false, false);
    var target: TargetApps := map["m" := NoUri(false)];
    var e := EngineState({"old"}, map[], {}, {});
    var engine := new Engine(false, e);
    var m := new Manager(cfg, engine);
    assert "m" in RequiredNames(cfg, target);
    assert Enabled(cfg, target) == map[];
    assert ToStart(cfg, target, None) == map[];
    before := engine.dirs;
    ghost var fails;
    code, fails := m.FinalizeInstall(target, None, Ok);
    after := engine.dirs;
    assert WouldThrow(Call(cfg, target, fails, code), e);
  }
}
