/**
 What `ComposeAppManager` (src/composeappmanager.cc) decides: which apps a target and the device config enable
 and require, and which of them have to be updated or fetched in a given state of the app engine.
 */
module AppPlan {
  import opened Basics

  datatype App = App(name: string, uri: string)

  /** An entry of `docker_compose_apps`: an object with a `uri`, an object without one, which is `empty` if it has no
      member at all, as null and the empty array are, or a value with no members to look up. */
  datatype AppEntry = AppUri(uri: string) | NoUri(empty: bool) | Scalar

  type TargetApps = map<string, AppEntry>
  type AppMap = map<string, string>

  /** `apps` and `resetApps` are `None` if not configured. */
  datatype Config = Config(
    apps: Option<set<string>>,
    resetApps: Option<seq<string>>,
    forceUpdate: bool,
    dockerPrune: bool,
    createContainersBeforeReboot: bool,
    stopAppsBeforeUpdate: bool)

  /** App engine: installed app directories, the URI each app runs at, the completely fetched apps, and the apps on
      which prune throws if it is to keep them, because their URI or their stored compose file cannot be read. */
  datatype EngineState = EngineState(dirs: set<string>, running: AppMap, fetched: set<App>, broken: set<App>)

  predicate Runs(e: EngineState, name: string, uri: string) {
    name in e.running && e.running[name] == uri
  }

  function AppsOf(apps: AppMap): set<App> {
    set name | name in apps :: App(name, apps[name])
  }

  // ---------------------------------------------------------------------------
  // getApps, getRequiredApps
  // ---------------------------------------------------------------------------

  /** The apps that are to run: those of the target that the config lists, or all of them. */
  function Enabled(cfg: Config, target: TargetApps): AppMap {
    map name | name in target && target[name].AppUri? && (cfg.apps.None? || name in cfg.apps.value)
      :: target[name].uri
  }

  predicate AllReset(cfg: Config) {
    cfg.resetApps == Some(["*"])
  }

  /** The names `getRequiredApps` collects before it looks them up in the target. */
  function RequiredNames(cfg: Config, target: TargetApps): set<string> {
    (if cfg.apps.Some? then cfg.apps.value else target.Keys)
    + (if cfg.resetApps.None? then {}
       else if AllReset(cfg) then target.Keys
       else set name | name in cfg.resetApps.value)
  }

  /** `getRequiredApps` throws on an entry without a `uri` that it touches. */
  predicate RequiredThrows(cfg: Config, target: TargetApps) {
    exists name :: name in RequiredNames(cfg, target) && name in target && !target[name].AppUri?
  }

  /** The apps that are to be kept in the store. */
  function Required(cfg: Config, target: TargetApps): AppMap {
    map name | name in RequiredNames(cfg, target) && name in target && target[name].AppUri? :: target[name].uri
  }

  lemma EnabledIsRequired(cfg: Config, target: TargetApps)
    ensures AppsOf(Enabled(cfg, target)) <= AppsOf(Required(cfg, target))
    ensures forall name | name in Enabled(cfg, target) ::
              name in Required(cfg, target) && Required(cfg, target)[name] == Enabled(cfg, target)[name]
  {
  }

  // ---------------------------------------------------------------------------
  // getAppsToUpdate, getAppsToFetch, checkForAppsToUpdate
  // ---------------------------------------------------------------------------

  datatype Reason = NewApp | NewVersion | NotRunning | NotFetched | ForcedUpdate | ResetAppNotFetched

  /** Why an enabled app has to be updated, if it has to. */
  function UpdateReason(current: TargetApps, e: EngineState, app: App): Option<Reason> {
    if app.name !in current || current[app.name] == NoUri(true) then Some(NewApp)
    else if app.uri != (if current[app.name].AppUri? then current[app.name].uri else "") then Some(NewVersion)
    else if !Runs(e, app.name, app.uri) then Some(NotRunning)
    else if app !in e.fetched then Some(NotFetched)
    else None
  }

  function ToUpdate(cfg: Config, target: TargetApps, current: TargetApps, e: EngineState): AppMap {
    var apps := Enabled(cfg, target);
    if cfg.forceUpdate then apps
    else map name | name in apps && UpdateReason(current, e, App(name, apps[name])).Some? :: apps[name]
  }

  /** `checkStore` is what the forced path leaves unset; it is true on the other path. */
  function ToFetch(cfg: Config, target: TargetApps, e: EngineState, toUpdate: AppMap, checkStore: bool): AppMap {
    var apps := Required(cfg, target);
    if !checkStore then apps
    else map name | name in apps && name !in toUpdate && App(name, apps[name]) !in e.fetched :: apps[name]
  }

  datatype Plan = Plan(toUpdate: AppMap, toFetch: AppMap)

  function Planned(plan: Plan): AppMap {
    plan.toFetch + plan.toUpdate
  }

  /** getAppsToUpdate throws if it looks for the URI of a current entry that has no members. */
  predicate LookupThrows(cfg: Config, target: TargetApps, current: TargetApps) {
    exists name :: name in Enabled(cfg, target) && name in current && current[name].Scalar?
  }

  /** A check throws on such an entry, unless updates are forced, and with reset apps on a malformed required entry. */
  predicate CheckThrows(cfg: Config, target: TargetApps, current: TargetApps) {
    (!cfg.forceUpdate && LookupThrows(cfg, target, current)) || (cfg.resetApps.Some? && RequiredThrows(cfg, target))
  }

  /** The outcome of a check; `oldFetch` is the list of apps to fetch from before. */
  function CheckedPlan(cfg: Config, target: TargetApps, current: TargetApps, e: EngineState, checkStore: bool,
                       oldFetch: AppMap): Plan {
    var toUpdate := ToUpdate(cfg, target, current, e);
    Plan(toUpdate,
         if cfg.resetApps.None? then oldFetch
         else ToFetch(cfg, target, e, toUpdate, checkStore || !cfg.forceUpdate))
  }

  /** The reason reported for an app that is to be updated. */
  function UpdateReasonOf(cfg: Config, current: TargetApps, e: EngineState, app: App): Reason {
    var reason := UpdateReason(current, e, app);
    if cfg.forceUpdate then ForcedUpdate else if reason.Some? then reason.value else NotFetched
  }

  /** What a check reports: every planned app, with a reason. */
  function Reasons(cfg: Config, current: TargetApps, e: EngineState, plan: Plan): map<string, Reason> {
    map name | name in Planned(plan) ::
      if name in plan.toUpdate then UpdateReasonOf(cfg, current, e, App(name, plan.toUpdate[name]))
      else ResetAppNotFetched
  }

  lemma AllReasons(cfg: Config, current: TargetApps, e: EngineState, plan: Plan, updates: map<string, Reason>)
    requires updates.Keys == plan.toUpdate.Keys
    requires forall name | name in updates ::
               updates[name] == UpdateReasonOf(cfg, current, e, App(name, plan.toUpdate[name]))
    ensures (map name | name in plan.toFetch :: ResetAppNotFetched) + updates == Reasons(cfg, current, e, plan)
  {
  }

  /** There is a reason exactly if there is something to do. */
  lemma NoReasons(cfg: Config, current: TargetApps, e: EngineState, plan: Plan)
    ensures Reasons(cfg, current, e, plan) == map[] <==> plan == Plan(map[], map[])
  {
    if Reasons(cfg, current, e, plan) == map[] {
      forall name ensures name !in plan.toUpdate && name !in plan.toFetch {
        assert name !in Reasons(cfg, current, e, plan);
        assert name !in Planned(plan);
      }
      assert plan.toUpdate == map[] && plan.toFetch == map[];
    }
  }

  // ---------------------------------------------------------------------------
  // Steps of the engine
  // ---------------------------------------------------------------------------

  datatype Code = Ok | NeedCompletion | InstallFailed | DownloadFailed | CustomError | Threw

  /** What install returns when the tree installation returned `tree` and the apps and the cleanup ended with `apps`. */
  function InstallCode(tree: Code, create: bool, apps: Code): Code {
    match tree
    case InstallFailed => InstallFailed
    case NeedCompletion => if create && apps in {DownloadFailed, InstallFailed} then apps else NeedCompletion
    case _ => if apps in {DownloadFailed, InstallFailed, Threw} then apps else Ok
  }

  /** The same for finalizeInstall. */
  function FinalCode(tree: Code, apps: Code): Code {
    if tree != Ok then tree else if apps in {DownloadFailed, CustomError, Threw} then apps else Ok
  }

  /** Nothing but the entries of `names` differs. */
  ghost predicate SameExcept(before: EngineState, names: set<string>, after: EngineState) {
    && (forall name | name !in names :: name in before.running <==> name in after.running)
    && (forall name | name !in names && name in before.running :: before.running[name] == after.running[name])
    && (forall name | name !in names :: name in before.dirs <==> name in after.dirs)
  }

  /** What a download may do to the engine; failed fetches may take away apps that were to be fetched. */
  ghost predicate DownloadStep(plan: Plan, before: EngineState, ok: bool, after: EngineState) {
    && before.dirs == after.dirs && before.running == after.running
    && (if ok then after.fetched == before.fetched + AppsOf(Planned(plan))
        else before.fetched - AppsOf(Planned(plan)) <= after.fetched <= before.fetched + AppsOf(Planned(plan)))
  }

  /** What a cleanup for a target leaves, whether it runs to its end or not. */
  ghost predicate CleanStep(cfg: Config, target: TargetApps, before: EngineState, after: EngineState) {
    && after.fetched <= before.fetched
    && before.fetched * AppsOf(Required(cfg, target)) <= after.fetched
    && (!cfg.dockerPrune ==> after.fetched == before.fetched)
    && before.dirs * Enabled(cfg, target).Keys <= after.dirs
  }

  /** When a cleanup that prunes throws: on a malformed required entry, on a stored app that prune cannot read, or if
      prune `fails` for a reason outside the store. */
  predicate CleanUpThrows(prunes: bool, cfg: Config, target: TargetApps, e: EngineState, fails: bool) {
    prunes && (RequiredThrows(cfg, target) || e.broken * AppsOf(Required(cfg, target)) != {} || fails)
  }

  /** What any call of install or finalizeInstall that ends with `code` may take away.  A call that throws was cleaning
      up; it takes stored apps only if it got to prune. */
  ghost predicate RemovalStep(cfg: Config, target: TargetApps, before: EngineState, code: Code, after: EngineState) {
    match code
    case Ok => CleanStep(cfg, target, before, after)
    case Threw =>
      CleanStep(cfg, target, before, after) && (RequiredThrows(cfg, target) ==> after.fetched == before.fetched)
    case _ => before.dirs <= after.dirs && before.fetched == after.fetched
  }

  /** After a successful call: the enabled apps of `started` run, and what is neither disabled nor in `touched` runs as before. */
  ghost predicate StartStep(cfg: Config, target: TargetApps, started: AppMap, touched: set<string>, before: EngineState,
                            after: EngineState) {
    && (forall name | name in started && name in Enabled(cfg, target) :: Runs(after, name, started[name]))
    && (forall name | name in Enabled(cfg, target) && name !in touched && name in before.running ::
          Runs(after, name, before.running[name]))
  }

  /** The exact directories, stored apps and stopped apps after a successful call on an engine without faults. */
  ghost predicate ExactStep(cfg: Config, target: TargetApps, started: set<string>, before: EngineState,
                            after: EngineState) {
    && after.dirs == (before.dirs + started) * Enabled(cfg, target).Keys
    && after.fetched == (if cfg.dockerPrune then before.fetched * AppsOf(Required(cfg, target)) else before.fetched)
    && (forall name | name in before.dirs && name !in Enabled(cfg, target) :: name !in after.running)
  }

  /** The exact directories after a call on an engine without faults that throws. */
  ghost predicate ThrownStep(cfg: Config, target: TargetApps, started: set<string>, before: EngineState,
                             after: EngineState) {
    after.dirs == (before.dirs + started) * Enabled(cfg, target).Keys
  }

  /** The apps finalization starts: the enabled ones, and of these only the ones the install recorded, if it did. */
  function ToStart(cfg: Config, target: TargetApps, context: Option<AppMap>): AppMap {
    var apps := Enabled(cfg, target);
    map name | name in apps && (context.Some? ==> name in context.value && context.value[name] == apps[name])
      :: apps[name]
  }

  /** What an install records: the required apps, if there are any. */
  function Recorded(cfg: Config, target: TargetApps): Option<AppMap> {
    if Required(cfg, target) == map[] then None else Some(Required(cfg, target))
  }

  /** The install records the required apps, so under the same config finalization starts every enabled app. */
  lemma RecordedAppsStart(cfg: Config, target: TargetApps)
    ensures ToStart(cfg, target, Recorded(cfg, target)) == Enabled(cfg, target)
  {
    EnabledIsRequired(cfg, target);
  }

  // ---------------------------------------------------------------------------
  // Deletion only after success
  // ---------------------------------------------------------------------------

  /** One call of install or finalizeInstall, for any target, under any config; `fails` says whether a prune in it fails
      for a reason outside the store. */
  datatype Call = Call(cfg: Config, target: TargetApps, fails: bool, code: Code)

  /** The call throws if it gets as far as its cleanup. */
  predicate WouldThrow(call: Call, e: EngineState) {
    CleanUpThrows(call.cfg.dockerPrune, call.cfg, call.target, e, call.fails)
  }

  ghost predicate Run(calls: seq<Call>, states: seq<EngineState>) {
    && |states| == |calls| + 1
    && forall i | 0 <= i < |calls| :: CallStep(calls[i], states[i], states[i + 1])
  }

  ghost predicate CallStep(call: Call, before: EngineState, after: EngineState) {
    && RemovalStep(call.cfg, call.target, before, call.code, after)
    && (call.code in {Ok, Threw} ==> (call.code == Threw <==> WouldThrow(call, before)))
  }

  /** A stored app may be lost in this call: it prunes, does not require the app, and either succeeds or throws, in
      prune. */
  predicate MayLose(call: Call, e: EngineState, app: App) {
    && call.cfg.dockerPrune && app !in AppsOf(Required(call.cfg, call.target))
    && (call.code == Ok || (WouldThrow(call, e) && !RequiredThrows(call.cfg, call.target)))
  }

  /** However calls of failing, pending and succeeding installations are mixed, a stored app disappears only in a call
      that succeeds or whose prune throws, and whose target and config do not require the app. */
  lemma {:induction false} StoredAppIsLostOnlyUnrequired(calls: seq<Call>, states: seq<EngineState>, app: App)
    requires Run(calls, states)
    requires app in states[0].fetched && app !in states[|calls|].fetched
    ensures exists i :: 0 <= i < |calls| && MayLose(calls[i], states[i], app)
    decreases |calls|
  {
    if |calls| > 0 {
      var n := |calls| - 1;
      if app in states[n].fetched {
        assert CallStep(calls[n], states[n], states[n + 1]);
        assert MayLose(calls[n], states[n], app);
      } else {
        StoredAppIsLostOnlyUnrequired(calls[..n], states[..n + 1], app);
        var i :| 0 <= i < n && MayLose(calls[..n][i], states[..n + 1][i], app);
        assert MayLose(calls[i], states[i], app);
      }
    }
  }

  /** A directory may be lost in this call: it does not enable the app, and either succeeds or throws. */
  predicate MayRemove(call: Call, e: EngineState, name: string) {
    name !in Enabled(call.cfg, call.target) && (call.code == Ok || WouldThrow(call, e))
  }

  /** The same for the directory of an installed app. */
  lemma {:induction false} DirIsLostOnlyDisabled(calls: seq<Call>, states: seq<EngineState>, name: string)
    requires Run(calls, states)
    requires name in states[0].dirs && name !in states[|calls|].dirs
    ensures exists i :: 0 <= i < |calls| && MayRemove(calls[i], states[i], name)
    decreases |calls|
  {
    if |calls| > 0 {
      var n := |calls| - 1;
      if name in states[n].dirs {
        assert CallStep(calls[n], states[n], states[n + 1]);
        assert MayRemove(calls[n], states[n], name);
      } else {
        DirIsLostOnlyDisabled(calls[..n], states[..n + 1], name);
        var i :| 0 <= i < n && MayRemove(calls[..n][i], states[..n + 1][i], name);
        assert MayRemove(calls[i], states[i], name);
      }
    }
  }

  /** Calls that do not succeed, and that would not throw in a cleanup either, take nothing away. */
  lemma {:induction false} FailuresDeleteNothing(calls: seq<Call>, states: seq<EngineState>)
    requires Run(calls, states)
    requires forall i | 0 <= i < |calls| :: calls[i].code != Ok && !WouldThrow(calls[i], states[i])
    ensures states[0].dirs <= states[|calls|].dirs && states[0].fetched == states[|calls|].fetched
    decreases |calls|
  {
    if |calls| > 0 {
      var n := |calls| - 1;
      FailuresDeleteNothing(calls[..n], states[..n + 1]);
      assert CallStep(calls[n], states[n], states[n + 1]);
    }
  }

  // ---------------------------------------------------------------------------
  // Convergence
  // ---------------------------------------------------------------------------

  /** Every enabled app is stored, and with reset apps every required one. */
  predicate Stored(cfg: Config, target: TargetApps, e: EngineState) {
    && AppsOf(Enabled(cfg, target)) <= e.fetched
    && (cfg.resetApps.Some? ==> AppsOf(Required(cfg, target)) <= e.fetched)
  }

  /** Besides, every enabled app runs at the target's URI. */
  ghost predicate Settled(cfg: Config, target: TargetApps, e: EngineState) {
    && (forall name | name in Enabled(cfg, target) :: Runs(e, name, Enabled(cfg, target)[name]))
    && Stored(cfg, target, e)
  }

  /** An unforced check of the current target finds nothing to do exactly in a settled state. */
  lemma NothingToDoIff(cfg: Config, target: TargetApps, e: EngineState, checkStore: bool)
    requires !cfg.forceUpdate
    ensures CheckedPlan(cfg, target, target, e, checkStore, map[]) == Plan(map[], map[]) <==> Settled(cfg, target, e)
  {
    var enabled, required := Enabled(cfg, target), Required(cfg, target);
    var plan := CheckedPlan(cfg, target, target, e, checkStore, map[]);
    EnabledIsRequired(cfg, target);
    if plan == Plan(map[], map[]) {
      forall name | name in enabled
        ensures Runs(e, name, enabled[name]) && App(name, enabled[name]) in e.fetched
      {
        assert name !in plan.toUpdate;
      }
      if cfg.resetApps.Some? {
        forall name | name in required ensures App(name, required[name]) in e.fetched {
          assert name !in plan.toFetch;
        }
      }
    }
    if Settled(cfg, target, e) {
      forall name | name in enabled ensures name !in plan.toUpdate {
        assert App(name, enabled[name]) in AppsOf(enabled);
      }
      assert plan.toUpdate.Keys == {};
      forall name | name in required ensures name !in plan.toFetch {
        assert App(name, required[name]) in AppsOf(required);
      }
      assert plan.toFetch.Keys == {};
    }
  }

  /** After the check and a successful download, everything the target enables, and with reset apps everything it
      requires, is stored. */
  lemma DownloadCompletes(cfg: Config, target: TargetApps, current: TargetApps, checkStore: bool, plan: Plan,
                          e0: EngineState, e1: EngineState)
    requires plan == CheckedPlan(cfg, target, current, e0, checkStore, map[])
    requires DownloadStep(plan, e0, true, e1)
    ensures AppsOf(Enabled(cfg, target)) <= e1.fetched
    ensures cfg.resetApps.Some? ==> AppsOf(Required(cfg, target)) <= e1.fetched
  {
    var enabled, required := Enabled(cfg, target), Required(cfg, target);
    EnabledIsRequired(cfg, target);
    forall name | name in enabled ensures App(name, enabled[name]) in e1.fetched {
      if name in plan.toUpdate {
        assert name in Planned(plan) && Planned(plan)[name] == enabled[name];
      }
    }
    if cfg.resetApps.Some? {
      forall name | name in required ensures App(name, required[name]) in e1.fetched {
        if name in Planned(plan) {
          assert Planned(plan)[name] == required[name];
        }
      }
    }
  }

  /** An enabled app that is not to be updated already runs. */
  lemma NotUpdatedRuns(cfg: Config, target: TargetApps, current: TargetApps, e: EngineState, name: string)
    requires name in Enabled(cfg, target) && name !in ToUpdate(cfg, target, current, e)
    ensures Runs(e, name, Enabled(cfg, target)[name])
  {
  }

  /** After check, download and install have succeeded, every enabled app runs and every required app is stored. */
  lemma CycleSettles(cfg: Config, target: TargetApps, current: TargetApps, checkStore: bool, plan: Plan,
                     e0: EngineState, e1: EngineState, e2: EngineState)
    requires plan == CheckedPlan(cfg, target, current, e0, checkStore, map[])
    requires DownloadStep(plan, e0, true, e1)
    requires RemovalStep(cfg, target, e1, Ok, e2) && StartStep(cfg, target, plan.toUpdate, plan.toUpdate.Keys, e1, e2)
    ensures Settled(cfg, target, e2)
  {
    var enabled := Enabled(cfg, target);
    DownloadCompletes(cfg, target, current, checkStore, plan, e0, e1);
    EnabledIsRequired(cfg, target);
    forall name | name in enabled ensures Runs(e2, name, enabled[name]) {
      if name !in plan.toUpdate {
        NotUpdatedRuns(cfg, target, current, e0, name);
      }
    }
  }

  lemma SettledUnforced(cfg: Config, target: TargetApps, e: EngineState, again: bool)
    requires Settled(cfg, target, e)
    ensures CheckedPlan(cfg.(forceUpdate := false), target, target, e, again, map[]) == Plan(map[], map[])
  {
    assert Enabled(cfg.(forceUpdate := false), target) == Enabled(cfg, target);
    assert Required(cfg.(forceUpdate := false), target) == Required(cfg, target);
    NothingToDoIff(cfg.(forceUpdate := false), target, e, again);
  }

  /**
   Convergence without a reboot: once check, download and install have succeeded, an unforced check of the target,
   which is current now, finds nothing to update and nothing to fetch.
   */
  lemma Convergence(cfg: Config, target: TargetApps, current: TargetApps, checkStore: bool, again: bool, plan: Plan,
                    e0: EngineState, e1: EngineState, e2: EngineState)
    requires plan == CheckedPlan(cfg, target, current, e0, checkStore, map[])
    requires DownloadStep(plan, e0, true, e1)
    requires RemovalStep(cfg, target, e1, Ok, e2) && StartStep(cfg, target, plan.toUpdate, plan.toUpdate.Keys, e1, e2)
    ensures CheckedPlan(cfg.(forceUpdate := false), target, target, e2, again, map[]) == Plan(map[], map[])
  {
    CycleSettles(cfg, target, current, checkStore, plan, e0, e1, e2);
    SettledUnforced(cfg, target, e2, again);
  }

  /**
   Convergence over a reboot: the install waits for one (`e1` to `e2`), the device reboots, whatever apps that starts
   (`e2` to `e3`), and finalization starts every enabled app (`e3` to `e4`).
   */
  lemma ConvergenceOverReboot(cfg: Config, target: TargetApps, current: TargetApps, checkStore: bool, again: bool,
                              plan: Plan, e0: EngineState, e1: EngineState, e2: EngineState, e3: EngineState,
                              e4: EngineState)
    requires plan == CheckedPlan(cfg, target, current, e0, checkStore, map[])
    requires DownloadStep(plan, e0, true, e1)
    requires RemovalStep(cfg, target, e1, NeedCompletion, e2)
    requires e3 == e2.(running := e3.running)
    requires RemovalStep(cfg, target, e3, Ok, e4)
    requires StartStep(cfg, target, Enabled(cfg, target), Enabled(cfg, target).Keys, e3, e4)
    ensures CheckedPlan(cfg.(forceUpdate := false), target, target, e4, again, map[]) == Plan(map[], map[])
  {
    DownloadCompletes(cfg, target, current, checkStore, plan, e0, e1);
    EnabledIsRequired(cfg, target);
    SettledUnforced(cfg, target, e4, again);
  }

  // ---------------------------------------------------------------------------
  // The cleanup that follows a first check
  // ---------------------------------------------------------------------------

  /** What the cleanup does to an engine without faults: the check found nothing to do, so apps that the current target
      does not need are removed. */
  ghost predicate CleanupStep(cfg: Config, current: TargetApps, before: EngineState, after: EngineState) {
    && SameExcept(before, before.dirs - Enabled(cfg, current).Keys, after)
    && after.fetched == (if cfg.dockerPrune && cfg.resetApps.Some? then before.fetched * AppsOf(Required(cfg, current))
                         else before.fetched)
  }

  /** If nothing is to be updated, the enabled apps are those of the current target as well, and they run. */
  lemma UpToDateApps(cfg: Config, target: TargetApps, current: TargetApps, e: EngineState)
    requires ToUpdate(cfg, target, current, e) == map[] && !RequiredThrows(cfg, current)
    ensures forall name | name in Enabled(cfg, target) ::
              && Runs(e, name, Enabled(cfg, target)[name]) && App(name, Enabled(cfg, target)[name]) in e.fetched
              && name in Enabled(cfg, current) && Enabled(cfg, current)[name] == Enabled(cfg, target)[name]
  {
    var enabled := Enabled(cfg, target);
    forall name | name in enabled
      ensures Runs(e, name, enabled[name]) && App(name, enabled[name]) in e.fetched
      ensures name in Enabled(cfg, current) && Enabled(cfg, current)[name] == enabled[name]
    {
      assert name !in ToUpdate(cfg, target, current, e);
      assert name in current && name in RequiredNames(cfg, current);
      assert current[name].AppUri?;
    }
  }

  lemma EnabledSurvivesCleanup(cfg: Config, target: TargetApps, current: TargetApps, e0: EngineState, e1: EngineState,
                              e2: EngineState)
    requires ToUpdate(cfg, target, current, e0) == map[]
    requires !RequiredThrows(cfg, current) && CleanupStep(cfg, current, e0, e1)
    requires StartStep(cfg, target, map[], {}, e1, e2)
    requires e2.fetched == (if cfg.dockerPrune then e1.fetched * AppsOf(Required(cfg, target)) else e1.fetched)
    ensures forall name | name in Enabled(cfg, target) :: Runs(e2, name, Enabled(cfg, target)[name])
    ensures AppsOf(Enabled(cfg, target)) <= e2.fetched
  {
    var enabled := Enabled(cfg, target);
    UpToDateApps(cfg, target, current, e0);
    EnabledIsRequired(cfg, target);
    EnabledIsRequired(cfg, current);
    forall name | name in enabled ensures Runs(e2, name, enabled[name]) && App(name, enabled[name]) in e2.fetched {
      assert App(name, enabled[name]) in AppsOf(enabled);
      assert App(name, enabled[name]) in AppsOf(Enabled(cfg, current));
    }
  }

  lemma RequiredSurvivesCleanup(cfg: Config, target: TargetApps, current: TargetApps, checkStore: bool, e0: EngineState,
                               e1: EngineState, e2: EngineState)
    requires cfg.resetApps.Some?
    requires CheckedPlan(cfg, target, current, e0, checkStore, map[]) == Plan(map[], map[])
    requires CleanupStep(cfg, current, e0, e1)
    requires e2.fetched == (if cfg.dockerPrune then e1.fetched * AppsOf(Required(cfg, target)) else e1.fetched)
    ensures AppsOf(Required(cfg, target)) <= e2.fetched <==>
            (cfg.dockerPrune ==> AppsOf(Required(cfg, target)) <= AppsOf(Required(cfg, current)))
  {
    var required := Required(cfg, target);
    forall name | name in required ensures App(name, required[name]) in e0.fetched {
      assert name !in ToFetch(cfg, target, e0, map[], checkStore || !cfg.forceUpdate);
    }
    assert AppsOf(required) <= e0.fetched;
  }

  /**
   A check that finds nothing to do for a new target may be followed by a cleanup for the current one.  The new target
   then converges exactly if the cleanup keeps its required apps: if the store is not pruned, or the current target
   requires them too.
   */
  lemma ConvergenceAfterCleanup(cfg: Config, target: TargetApps, current: TargetApps, checkStore: bool, again: bool,
                                e0: EngineState, e1: EngineState, e2: EngineState)
    requires CheckedPlan(cfg, target, current, e0, checkStore, map[]) == Plan(map[], map[])
    requires !RequiredThrows(cfg, current) && CleanupStep(cfg, current, e0, e1)
    requires StartStep(cfg, target, map[], {}, e1, e2)
    requires e2.fetched == (if cfg.dockerPrune then e1.fetched * AppsOf(Required(cfg, target)) else e1.fetched)
    ensures CheckedPlan(cfg.(forceUpdate := false), target, target, e2, again, map[]) == Plan(map[], map[]) <==>
            (cfg.dockerPrune && cfg.resetApps.Some? ==> AppsOf(Required(cfg, target)) <= AppsOf(Required(cfg, current)))
  {
    EnabledSurvivesCleanup(cfg, target, current, e0, e1, e2);
    if cfg.resetApps.Some? {
      RequiredSurvivesCleanup(cfg, target, current, checkStore, e0, e1, e2);
    }
    assert Enabled(cfg.(forceUpdate := false), target) == Enabled(cfg, target);
    assert Required(cfg.(forceUpdate := false), target) == Required(cfg, target);
    NothingToDoIff(cfg.(forceUpdate := false), target, e2, again);
  }

  /** The cleanup for the current target keeps what a new one needs. */
  predicate KeepsNeeded(cfg: Config, target: TargetApps, current: TargetApps) {
    && !RequiredThrows(cfg, current)
    && (cfg.dockerPrune && cfg.resetApps.Some? ==> AppsOf(Required(cfg, target)) <= AppsOf(Required(cfg, current)))
  }

  /** From before a check to after its cleanup, if there was one, whatever faults the engine has. */
  ghost predicate CleanedStep(cfg: Config, current: TargetApps, cleaned: bool, before: EngineState, after: EngineState) {
    if !cleaned then after == before
    else
      && CleanStep(cfg, current, before, after)
      && SameExcept(before, before.dirs - Enabled(cfg, current).Keys, after)
  }

  /** The same for a check that led to `plan`, with a cleanup only if there was nothing to do, that keeps what is needed. */
  ghost predicate CheckStep(cfg: Config, target: TargetApps, current: TargetApps, cleaned: bool, plan: Plan,
                            before: EngineState, after: EngineState) {
    && CleanedStep(cfg, current, cleaned, before, after)
    && (cleaned ==> plan == Plan(map[], map[]) && KeepsNeeded(cfg, target, current))
  }

  /** What is needed stays stored over such a cleanup. */
  lemma StoredAfterCleanup(cfg: Config, target: TargetApps, current: TargetApps, checkStore: bool, e0: EngineState,
                           e1: EngineState)
    requires CheckedPlan(cfg, target, current, e0, checkStore, map[]) == Plan(map[], map[])
    requires KeepsNeeded(cfg, target, current) && CleanStep(cfg, current, e0, e1)
    ensures Stored(cfg, target, e1)
  {
    var enabled, required := Enabled(cfg, target), Required(cfg, target);
    UpToDateApps(cfg, target, current, e0);
    EnabledIsRequired(cfg, current);
    forall name | name in enabled ensures App(name, enabled[name]) in e1.fetched {
      assert App(name, enabled[name]) in AppsOf(Required(cfg, current));
    }
    if cfg.resetApps.Some? {
      forall name | name in required ensures App(name, required[name]) in e1.fetched {
        assert name !in ToFetch(cfg, target, e0, map[], checkStore || !cfg.forceUpdate);
        assert App(name, required[name]) in AppsOf(required);
      }
    }
  }

  /** After check, cleanup and download everything that is needed is stored. */
  lemma CheckStores(cfg: Config, target: TargetApps, current: TargetApps, checkStore: bool, cleaned: bool, plan: Plan,
                    e0: EngineState, e1: EngineState, e2: EngineState)
    requires plan == CheckedPlan(cfg, target, current, e0, checkStore, map[])
    requires CheckStep(cfg, target, current, cleaned, plan, e0, e1) && DownloadStep(plan, e1, true, e2)
    ensures Stored(cfg, target, e2)
  {
    if cleaned {
      StoredAfterCleanup(cfg, target, current, checkStore, e0, e1);
    } else {
      DownloadCompletes(cfg, target, current, checkStore, plan, e0, e2);
    }
  }

  /** After the install every enabled app runs as well. */
  lemma CheckSettles(cfg: Config, target: TargetApps, current: TargetApps, checkStore: bool, cleaned: bool, plan: Plan,
                     e0: EngineState, e1: EngineState, e2: EngineState, e3: EngineState)
    requires plan == CheckedPlan(cfg, target, current, e0, checkStore, map[])
    requires CheckStep(cfg, target, current, cleaned, plan, e0, e1) && DownloadStep(plan, e1, true, e2)
    requires RemovalStep(cfg, target, e2, Ok, e3) && StartStep(cfg, target, plan.toUpdate, plan.toUpdate.Keys, e2, e3)
    ensures Settled(cfg, target, e3)
  {
    if cleaned {
      CheckStores(cfg, target, current, checkStore, cleaned, plan, e0, e1, e2);
      EnabledIsRequired(cfg, target);
      UpToDateApps(cfg, target, current, e0);
      forall name | name in Enabled(cfg, target) ensures Runs(e3, name, Enabled(cfg, target)[name]) {
        assert Runs(e1, name, Enabled(cfg, target)[name]);
      }
    } else {
      CycleSettles(cfg, target, current, checkStore, plan, e0, e2, e3);
    }
  }

  /** Finalization starts the enabled apps of a target that is stored. */
  lemma FinalizationSettles(cfg: Config, target: TargetApps, e0: EngineState, e1: EngineState)
    requires Stored(cfg, target, e0) && RemovalStep(cfg, target, e0, Ok, e1)
    requires StartStep(cfg, target, Enabled(cfg, target), Enabled(cfg, target).Keys, e0, e1)
    ensures Settled(cfg, target, e1)
  {
    EnabledIsRequired(cfg, target);
  }

  /** A reset app that the new target adds and that is stored already is lost to the cleanup. */
  lemma CleanupLosesResetApp()
    ensures var cfg := Config(Some({}), Some(["b"]), false, true, false, false);
            var target: TargetApps := map["b" := AppUri("b1")];
            var e0 := EngineState({}, map[], {App("b", "b1")}, {});
            && CheckedPlan(cfg, target, map[], e0, true, map[]) == Plan(map[], map[])
            && CleanupStep(cfg, map[], e0, EngineState({}, map[], {}, {}))
            && CheckedPlan(cfg, target, target, EngineState({}, map[], {}, {}), true, map[])
               == Plan(map[], map["b" := "b1"])
  {
    var cfg := Config(Some({}), Some(["b"]), false, true, false, false);
    var target: TargetApps := map["b" := AppUri("b1")];
    var e0 := EngineState({}, map[], {App("b", "b1")}, {});
    assert Enabled(cfg, target) == map[];
    assert "b" in RequiredNames(cfg, target);
    assert Required(cfg, target) == map["b" := "b1"];
    assert Required(cfg, map[]).Keys == {};
    assert ToFetch(cfg, target, e0, map[], true).Keys == {};
  }
}
