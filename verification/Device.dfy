/**
 The update and rollback state machine: what `LiteClient`, `AkliteClient`, `AkliteClientExt`, the command line and
 the daemon do to the deployed trees and to the installation log.  Results of downloads, deployments, apps, reboots
 and lookups are inputs, so every statement is about all of them.
 */
module Device {
  import opened Basics
  import opened AppPlan
  import opened RootfsTree
  import opened InstallLog
  import opened Selection

  /** `rebooted` says whether the device was rebooted since a tree was last deployed or a target last recorded as
      pending, and no finalization has seen it yet. */
  datatype Device = Device(trees: Trees, rebooted: bool, log: Log)

  function Active(d: Device): Target {
    CurrentTarget(d.log, d.trees.booted)
  }

  predicate Idle(d: Device) {
    PendingTarget(d.log).None?
  }

  // ---------------------------------------------------------------------------
  // LiteClient::install, LiteInstall::Install
  // ---------------------------------------------------------------------------

  datatype InstallMode = All | OstreeOnly

  datatype Ready = Verified | NotVerified | Malformed

  /** `ready`: what happens before the installation starts; `firmware`: what the bootloader decides; `deployed`: whether
      the tree can be deployed; `create`: whether containers are created before a reboot; `apps`: how installing the
      apps ends. */
  datatype InstallEnv = InstallEnv(ready: Ready, firmware: Firmware, deployed: bool, create: bool, apps: Code)

  datatype Outcome<T> = Outcome(result: T, device: Device)

  /** What the package manager returns; an exception counts as a failed installation. */
  function PackageCode(tree: Code, mode: InstallMode, env: InstallEnv): Code {
    if mode.OstreeOnly? then tree
    else
      var code := InstallCode(tree, env.create, env.apps);
      if code == Threw then InstallFailed else code
  }

  /** What an installation returns, the trees it leaves, and how it saves the target, if it does. */
  datatype Effect = Effect(code: Code, trees: Trees, save: Option<Mode>)

  /** A reboot from before an installation that deploys or records does not count as the one it waits for. */
  predicate MakesDue(trees: Trees, hash: Hash, env: InstallEnv, save: Option<Mode>) {
    save == Some(Pending) || Deploys(trees, hash, env.firmware, env.deployed)
  }

  function EffectOf(trees: Trees, hash: Hash, mode: InstallMode, env: InstallEnv): Effect {
    var tree := InstallTree(trees, hash, env.firmware, env.deployed);
    match PackageCode(tree.code, mode, env)
    case NeedCompletion =>
      Effect(NeedCompletion, tree.trees, if PendingTree(tree.trees) == Some(hash) then Some(Pending) else None)
    case Ok =>
      if mode.OstreeOnly? then Effect(NeedCompletion, tree.trees, Some(Pending)) else Effect(Ok, tree.trees, Some(Current))
    case DownloadFailed => Effect(DownloadFailed, tree.trees, None)
    case code => Effect(code, tree.trees, Some(Plain))
  }

  function LiteInstall(keep: bool, d: Device, t: Target, mode: InstallMode, env: InstallEnv): Outcome<Code> {
    var e := EffectOf(d.trees, t.hash, mode, env);
    Outcome(e.code,
            Device(e.trees, d.rebooted && !MakesDue(d.trees, t.hash, env, e.save), Record(keep, d.log, t, e.save)))
  }

  /** How results, trees and saves go together. */
  lemma EffectMeaning(trees: Trees, hash: Hash, mode: InstallMode, env: InstallEnv)
    ensures var e := EffectOf(trees, hash, mode, env);
            && e.trees.booted == trees.booted
            && e.code in {Ok, NeedCompletion, DownloadFailed, InstallFailed}
            && (e.code == Ok <==> e.save == Some(Current)) && (e.code == InstallFailed <==> e.save == Some(Plain))
            && (e.code == DownloadFailed ==> e.save.None?)
            && (e.code == Ok ==> trees.booted == hash == e.trees.next)
            && (e.save == Some(Pending) ==> e.trees.next == hash)
            && (e.code == NeedCompletion && e.save.None? <==>
                  && trees.booted != hash && trees.next != hash && env.firmware.verdict == NeedCompletion
                  && (mode.All? && env.create ==> env.apps !in {DownloadFailed, InstallFailed}))
            && (e.code == NeedCompletion && e.save.None? ==> e.trees == trees)
  {
  }

  datatype Status =
    | Done
    | NeedsCompletion
    | AppsNeedCompletion
    | BootFwNeedsCompletion
    | NotDownloaded
    | Failed
    | Exception
    | InstallationInProgress
    | NotStarted
    | InstallRollbackOk
    | InstallRollbackFailed

  function Install(keep: bool, d: Device, t: Target, mode: InstallMode, env: InstallEnv): Outcome<Status> {
    match env.ready
    case NotVerified => Outcome(NotDownloaded, d)
    case Malformed => Outcome(Exception, d)
    case Verified =>
      var r := LiteInstall(keep, d, t, mode, env);
      var pending := PendingTarget(r.device.log);
      Outcome(StatusOf(r.result, pending.Some? && pending.value.hash == t.hash, r.device.trees.booted == t.hash), r.device)
  }

  function StatusOf(code: Code, pending: bool, booted: bool): Status {
    match code
    case NeedCompletion => if !pending then BootFwNeedsCompletion else if booted then AppsNeedCompletion else NeedsCompletion
    case Ok => Done
    case DownloadFailed => NotDownloaded
    case _ => Failed
  }

  // ---------------------------------------------------------------------------
  // PullAndInstall
  // ---------------------------------------------------------------------------

  /** `proceeds` is false if lack of space, a missing target or the download ends the call, or if it only downloads. */
  datatype PullEnv = PullEnv(proceeds: bool, first: InstallEnv, found: bool, second: InstallEnv)

  function PullAndInstall(keep: bool, d: Device, t: Target, mode: InstallMode, env: PullEnv): Outcome<Status> {
    if !Idle(d) then Outcome(InstallationInProgress, d)
    else if !env.proceeds then Outcome(NotStarted, d)
    else
      var r := Install(keep, d, t, mode, env.first);
      if r.result != Failed then r
      else if !env.found then Outcome(InstallRollbackFailed, r.device)
      else
        var back := Install(keep, r.device, Active(d), All, env.second);
        Outcome(RollbackStatus(back.result), back.device)
  }

  function RollbackStatus(back: Status): Status {
    match back
    case Done => InstallRollbackOk
    case Exception => Exception
    case _ => InstallRollbackFailed
  }

  // ---------------------------------------------------------------------------
  // Reboot, finalizePendingUpdate, CompleteInstallation, the command `finalize`
  // ---------------------------------------------------------------------------

  /** The device boots the next tree or, if that does not come up, the old one; the firmware may clear its flag. */
  function Reboot(d: Device, up: bool, confirmed: bool): Device {
    Device(Trees(if up then d.trees.next else d.trees.booted, d.trees.next, d.trees.upgrade && !confirmed), true, d.log)
  }

  /** Result of OstreeManager::finalizeInstall: a reboot into another tree failed, one that is due is waited for. */
  function BootCode(d: Device, t: Target): Code {
    if d.trees.booted == t.hash then Ok else if d.rebooted then InstallFailed else NeedCompletion
  }

  function Finalize(keep: bool, d: Device, apps: Code): Outcome<Code> {
    if Idle(d) then Outcome(Ok, d)
    else
      var t := PendingTarget(d.log).value;
      var code := FinalCode(BootCode(d, t), apps);
      Outcome(code,
              d.(rebooted := false,
                 log := match code
                        case Ok => Save(keep, d.log, t, Current)
                        case InstallFailed => Save(keep, d.log, t, Plain)
                        case CustomError => Save(keep, d.log, t, Plain)
                        case _ => d.log))
  }

  /** `inSync`: no app of the old target has to be started; `found`: the target to roll back to is known. */
  datatype CompleteEnv = CompleteEnv(apps: Code, inSync: bool, sync: InstallEnv, found: bool, back: InstallEnv)

  /** CompleteInstall of src/cli/cli.cc: finalize, and after a failure sync the old target or roll back. */
  function CompleteInstall(keep: bool, d: Device, env: CompleteEnv): Device {
    var final := Finalize(keep, d, env.apps);
    if Idle(d) || final.result in {Ok, NeedCompletion, Threw} then final.device
    else if d.trees.booted != PendingTarget(d.log).value.hash then
      if env.inSync then final.device else Install(keep, final.device, Active(final.device), All, env.sync).device
    else if RollbackTarget(final.device.log, true).name == UNKNOWN || !env.found then final.device
    else Install(keep, final.device, RollbackTarget(final.device.log, true), All, env.back).device
  }

  // ---------------------------------------------------------------------------
  // Steps and runs
  // ---------------------------------------------------------------------------

  /** `Cut` is an installation that loses power, or whose process dies, after the tree was installed and before the
      log is written: that of the target itself, or that of the rollback after it failed. */
  datatype Step =
    | Pull(t: Target, mode: InstallMode, env: PullEnv)
    | Cut(t: Target, mode: InstallMode, env: PullEnv, inRollback: bool)
    | Boot(up: bool, confirmed: bool)
    | Finish(apps: Code)
    | Complete(complete: CompleteEnv)

  /** The installation of the tree, and nothing after it. */
  function CutInstall(d: Device, hash: Hash, env: InstallEnv): Device {
    d.(trees := InstallTree(d.trees, hash, env.firmware, env.deployed).trees,
       rebooted := d.rebooted && !Deploys(d.trees, hash, env.firmware, env.deployed))
  }

  function CutDevice(keep: bool, d: Device, t: Target, mode: InstallMode, env: PullEnv, inRollback: bool): Device {
    if !Idle(d) || !env.proceeds || !env.first.ready.Verified? then d
    else if !inRollback then CutInstall(d, t.hash, env.first)
    else
      var r := Install(keep, d, t, mode, env.first);
      if r.result != Failed then r.device else CutInstall(r.device, d.trees.booted, env.second)
  }

  function Next(keep: bool, d: Device, step: Step): Device {
    match step
    case Pull(t, mode, env) => PullAndInstall(keep, d, t, mode, env).device
    case Cut(t, mode, env, inRollback) => CutDevice(keep, d, t, mode, env, inRollback)
    case Boot(up, confirmed) => Reboot(d, up, confirmed)
    case Finish(apps) => Finalize(keep, d, apps).device
    case Complete(env) => CompleteInstall(keep, d, env)
  }

  function Exec(keep: bool, d: Device, steps: seq<Step>): Device {
    if steps == [] then d else Next(keep, Exec(keep, d, steps[..|steps| - 1]), steps[|steps| - 1])
  }

  // ---------------------------------------------------------------------------
  // Pending invariant
  // ---------------------------------------------------------------------------

  /** A pending record names a tree that is booted or deployed. */
  predicate PendingIsReal(d: Device) {
    PendingTarget(d.log).Some? ==> PendingTarget(d.log).value.hash in {d.trees.booted, d.trees.next}
  }

  predicate Inv(d: Device) {
    Proper(d.log) && PendingIsReal(d)
  }

  /** It names the tree that boots next. */
  predicate BootsPending(d: Device) {
    Proper(d.log) && (PendingTarget(d.log).Some? ==> PendingTarget(d.log).value.hash == d.trees.next)
  }

  /** Nothing is pending, or what is pending is booted already. */
  predicate PendingBooted(d: Device) {
    Idle(d) || PendingTarget(d.log).value.hash == d.trees.booted
  }

  lemma LiteInstallKeepsInv(keep: bool, d: Device, t: Target, mode: InstallMode, env: InstallEnv)
    requires Proper(d.log) && PendingBooted(d)
    ensures Inv(LiteInstall(keep, d, t, mode, env).device)
  {
    var save := EffectOf(d.trees, t.hash, mode, env).save;
    EffectMeaning(d.trees, t.hash, mode, env);
    RecordKeepsProper(keep, d.log, t, save);
    PendingAfterRecord(keep, d.log, t, save);
  }

  lemma InstallKeepsInv(keep: bool, d: Device, t: Target, mode: InstallMode, env: InstallEnv)
    requires Inv(d) && PendingBooted(d)
    ensures Inv(Install(keep, d, t, mode, env).device)
  {
    LiteInstallKeepsInv(keep, d, t, mode, env);
  }

  lemma FinalizeKeepsInv(keep: bool, d: Device, apps: Code)
    requires Inv(d)
    ensures Inv(Finalize(keep, d, apps).device)
    ensures Finalize(keep, d, apps).result !in {Ok, NeedCompletion} ==> PendingBooted(Finalize(keep, d, apps).device)
  {
    if !Idle(d) {
      var t := PendingTarget(d.log).value;
      SaveKeepsProper(keep, d.log, t, Current);
      SaveKeepsProper(keep, d.log, t, Plain);
      PendingAfterSave(keep, d.log, t, Current);
      PendingAfterSave(keep, d.log, t, Plain);
    }
  }

  /** A failed installation leaves nothing pending if nothing was. */
  lemma FailedStaysIdle(keep: bool, d: Device, t: Target, mode: InstallMode, env: InstallEnv)
    requires Proper(d.log) && Idle(d) && Install(keep, d, t, mode, env).result == Failed
    ensures var r := Install(keep, d, t, mode, env);
            && Idle(r.device) && r.device.trees.booted == d.trees.booted
            && r.device.log == Save(keep, d.log, t, Plain)
  {
    EffectMeaning(d.trees, t.hash, mode, env);
    PendingAfterRecord(keep, d.log, t, EffectOf(d.trees, t.hash, mode, env).save);
  }

  lemma PullKeepsInv(keep: bool, d: Device, t: Target, mode: InstallMode, env: PullEnv)
    requires Inv(d)
    ensures Inv(PullAndInstall(keep, d, t, mode, env).device)
  {
    if Idle(d) {
      InstallKeepsInv(keep, d, t, mode, env.first);
      var r := Install(keep, d, t, mode, env.first);
      if r.result == Failed {
        FailedStaysIdle(keep, d, t, mode, env.first);
        InstallKeepsInv(keep, r.device, Active(d), All, env.second);
      }
    }
  }

  lemma CutKeepsInv(keep: bool, d: Device, t: Target, mode: InstallMode, env: PullEnv, inRollback: bool)
    requires Inv(d)
    ensures Inv(CutDevice(keep, d, t, mode, env, inRollback))
  {
    if Idle(d) && env.first.ready.Verified? {
      LiteInstallKeepsInv(keep, d, t, mode, env.first);
      var r := Install(keep, d, t, mode, env.first);
      if r.result == Failed {
        FailedStaysIdle(keep, d, t, mode, env.first);
      }
    }
  }

  lemma CompleteKeepsInv(keep: bool, d: Device, env: CompleteEnv)
    requires Inv(d)
    ensures Inv(CompleteInstall(keep, d, env))
  {
    FinalizeKeepsInv(keep, d, env.apps);
    var final := Finalize(keep, d, env.apps);
    if final.result == InstallFailed {
      InstallKeepsInv(keep, final.device, Active(final.device), All, env.sync);
    } else if final.result in {CustomError, DownloadFailed} {
      InstallKeepsInv(keep, final.device, RollbackTarget(final.device.log, true), All, env.back);
    }
  }

  /** The reboot that leaves a pending record behind: its tree is booted, and another one comes up. */
  predicate LeavesRecord(d: Device, step: Step) {
    && step.Boot? && step.up
    && !Idle(d) && PendingTarget(d.log).value.hash == d.trees.booted != d.trees.next
  }

  /** Every step keeps the record real, except that reboot. */
  lemma StepKeepsInvIff(keep: bool, d: Device, step: Step)
    requires Inv(d)
    ensures Inv(Next(keep, d, step)) <==> !LeavesRecord(d, step)
  {
    match step
    case Pull(t, mode, env) => PullKeepsInv(keep, d, t, mode, env);
    case Cut(t, mode, env, inRollback) => CutKeepsInv(keep, d, t, mode, env, inRollback);
    case Boot(_, _) =>
    case Finish(apps) => FinalizeKeepsInv(keep, d, apps);
    case Complete(env) => CompleteKeepsInv(keep, d, env);
  }

  /** The one step after which a record may name another tree than the next one: the pending tree is booted, its apps
      cannot be pulled, so that the command `finalize` keeps the record and rolls back, to another tree, which it
      deploys before an app fails. */
  predicate Strands(d: Device, step: Step) {
    && step.Complete? && step.complete.apps == DownloadFailed
    && !Idle(d) && PendingTarget(d.log).value.hash == d.trees.booted
    && var back, env := RollbackTarget(d.log, true), step.complete.back;
    && back.name != UNKNOWN && back.hash != d.trees.booted
    && step.complete.found && env.ready.Verified?
    && env.firmware.verdict !in {NeedCompletion, InstallFailed} && env.deployed
    && env.create && env.apps in {DownloadFailed, InstallFailed}
  }

  lemma InstallBootsPending(keep: bool, d: Device, t: Target, mode: InstallMode, env: InstallEnv)
    requires Proper(d.log) && Idle(d)
    ensures BootsPending(Install(keep, d, t, mode, env).device)
  {
    var save := EffectOf(d.trees, t.hash, mode, env).save;
    EffectMeaning(d.trees, t.hash, mode, env);
    RecordKeepsProper(keep, d.log, t, save);
    PendingAfterRecord(keep, d.log, t, save);
  }

  lemma PullBootsPending(keep: bool, d: Device, t: Target, mode: InstallMode, env: PullEnv)
    requires BootsPending(d)
    ensures BootsPending(PullAndInstall(keep, d, t, mode, env).device)
  {
    if Idle(d) {
      InstallBootsPending(keep, d, t, mode, env.first);
      var r := Install(keep, d, t, mode, env.first);
      if r.result == Failed {
        FailedStaysIdle(keep, d, t, mode, env.first);
        InstallBootsPending(keep, r.device, Active(d), All, env.second);
      }
    }
  }

  lemma CutBootsPending(keep: bool, d: Device, t: Target, mode: InstallMode, env: PullEnv, inRollback: bool)
    requires BootsPending(d)
    ensures BootsPending(CutDevice(keep, d, t, mode, env, inRollback))
  {
    if Idle(d) {
      InstallBootsPending(keep, d, t, mode, env.first);
      if Install(keep, d, t, mode, env.first).result == Failed {
        FailedStaysIdle(keep, d, t, mode, env.first);
      }
    }
  }

  lemma FinalizeBootsPending(keep: bool, d: Device, apps: Code)
    requires BootsPending(d)
    ensures BootsPending(Finalize(keep, d, apps).device)
    ensures Finalize(keep, d, apps).result in {InstallFailed, CustomError} ==> Idle(Finalize(keep, d, apps).device)
  {
    if !Idle(d) {
      var t := PendingTarget(d.log).value;
      SaveKeepsProper(keep, d.log, t, Current);
      SaveKeepsProper(keep, d.log, t, Plain);
      PendingAfterSave(keep, d.log, t, Current);
      PendingAfterSave(keep, d.log, t, Plain);
    }
  }

  /** The rollback of the command `finalize` while the record is kept. */
  lemma StrandedIff(keep: bool, d: Device, back: Target, env: InstallEnv)
    requires BootsPending(d) && !Idle(d) && PendingTarget(d.log).value.hash == d.trees.booted
    ensures BootsPending(Install(keep, d, back, All, env).device) <==>
            !(&& back.hash != d.trees.booted && env.ready.Verified?
              && env.firmware.verdict !in {NeedCompletion, InstallFailed} && env.deployed
              && env.create && env.apps in {DownloadFailed, InstallFailed})
  {
    var save := EffectOf(d.trees, back.hash, All, env).save;
    EffectMeaning(d.trees, back.hash, All, env);
    RecordKeepsProper(keep, d.log, back, save);
    PendingAfterRecord(keep, d.log, back, save);
  }

  lemma CompleteBootsPendingIff(keep: bool, d: Device, env: CompleteEnv)
    requires BootsPending(d)
    ensures BootsPending(CompleteInstall(keep, d, env)) <==> !Strands(d, Complete(env))
  {
    FinalizeBootsPending(keep, d, env.apps);
    var final := Finalize(keep, d, env.apps);
    if final.result in {InstallFailed, CustomError} {
      InstallBootsPending(keep, final.device, Active(final.device), All, env.sync);
      InstallBootsPending(keep, final.device, RollbackTarget(final.device.log, true), All, env.back);
    } else if final.result == DownloadFailed {
      StrandedIff(keep, final.device, RollbackTarget(final.device.log, true), env.back);
    }
  }

  /** Every step, reboots included, keeps the pending tree the next one, except that command. */
  lemma StepBootsPendingIff(keep: bool, d: Device, step: Step)
    requires BootsPending(d)
    ensures BootsPending(Next(keep, d, step)) <==> !Strands(d, step)
  {
    match step
    case Pull(t, mode, env) => PullBootsPending(keep, d, t, mode, env);
    case Cut(t, mode, env, inRollback) => CutBootsPending(keep, d, t, mode, env, inRollback);
    case Boot(_, _) =>
    case Finish(apps) => FinalizeBootsPending(keep, d, apps);
    case Complete(env) => CompleteBootsPendingIff(keep, d, env);
  }

  /** The record is real at every point of the run. */
  predicate AlwaysReal(keep: bool, d: Device, steps: seq<Step>) {
    PendingIsReal(Exec(keep, d, steps)) && (steps != [] ==> AlwaysReal(keep, d, steps[..|steps| - 1]))
  }

  /** Some step of the run is the reboot that leaves a record behind. */
  predicate RunLeavesRecord(keep: bool, d: Device, steps: seq<Step>) {
    steps != [] &&
    var n := |steps| - 1;
    LeavesRecord(Exec(keep, d, steps[..n]), steps[n]) || RunLeavesRecord(keep, d, steps[..n])
  }

  /** Some step of the run is the command after which that reboot is possible. */
  predicate RunStrands(keep: bool, d: Device, steps: seq<Step>) {
    steps != [] &&
    var n := |steps| - 1;
    Strands(Exec(keep, d, steps[..n]), steps[n]) || RunStrands(keep, d, steps[..n])
  }

  lemma StepKeepsProper(keep: bool, d: Device, step: Step)
    requires Proper(d.log)
    ensures Proper(Next(keep, d, step).log)
  {
    match step
    case Pull(t, mode, env) =>
      InstallKeepsProper(keep, d, t, mode, env.first);
      InstallKeepsProper(keep, Install(keep, d, t, mode, env.first).device, Active(d), All, env.second);
    case Cut(t, mode, env, _) => InstallKeepsProper(keep, d, t, mode, env.first);
    case Boot(_, _) =>
    case Finish(apps) => FinalizeKeepsProper(keep, d, apps);
    case Complete(env) =>
      FinalizeKeepsProper(keep, d, env.apps);
      var final := Finalize(keep, d, env.apps).device;
      InstallKeepsProper(keep, final, Active(final), All, env.sync);
      InstallKeepsProper(keep, final, RollbackTarget(final.log, true), All, env.back);
  }

  lemma InstallKeepsProper(keep: bool, d: Device, t: Target, mode: InstallMode, env: InstallEnv)
    requires Proper(d.log)
    ensures Proper(Install(keep, d, t, mode, env).device.log)
  {
    RecordKeepsProper(keep, d.log, t, EffectOf(d.trees, t.hash, mode, env).save);
  }

  lemma FinalizeKeepsProper(keep: bool, d: Device, apps: Code)
    requires Proper(d.log)
    ensures Proper(Finalize(keep, d, apps).device.log)
  {
    if !Idle(d) {
      SaveKeepsProper(keep, d.log, PendingTarget(d.log).value, Current);
      SaveKeepsProper(keep, d.log, PendingTarget(d.log).value, Plain);
    }
  }

  lemma {:induction false} RunKeepsProper(keep: bool, d: Device, steps: seq<Step>)
    requires Proper(d.log)
    ensures Proper(Exec(keep, d, steps).log)
    decreases |steps|
  {
    if steps != [] {
      RunKeepsProper(keep, d, steps[..|steps| - 1]);
      StepKeepsProper(keep, Exec(keep, d, steps[..|steps| - 1]), steps[|steps| - 1]);
    }
  }

  /** A run, whatever fails, is cut short or falls back in it, has a pending record that is not of a booted or deployed
      tree exactly if one of its steps is the reboot that leaves a record behind. */
  lemma {:induction false} PendingInvariant(keep: bool, d: Device, steps: seq<Step>)
    requires Inv(d)
    ensures AlwaysReal(keep, d, steps) <==> !RunLeavesRecord(keep, d, steps)
    decreases |steps|
  {
    RunKeepsProper(keep, d, steps);
    if steps != [] {
      var front := steps[..|steps| - 1];
      RunKeepsProper(keep, d, front);
      PendingInvariant(keep, d, front);
      if AlwaysReal(keep, d, front) {
        RealAtTheEnd(keep, d, front);
        StepKeepsInvIff(keep, Exec(keep, d, front), steps[|steps| - 1]);
      }
    }
  }

  lemma RealAtTheEnd(keep: bool, d: Device, steps: seq<Step>)
    requires AlwaysReal(keep, d, steps)
    ensures PendingIsReal(Exec(keep, d, steps))
  {
  }

  /** Without the command that strands a record, the pending tree is the one that boots next throughout, and no reboot
      leaves the record behind. */
  lemma {:induction false} PendingTreeBootsNext(keep: bool, d: Device, steps: seq<Step>)
    requires BootsPending(d) && !RunStrands(keep, d, steps)
    ensures BootsPending(Exec(keep, d, steps)) && !RunLeavesRecord(keep, d, steps) && AlwaysReal(keep, d, steps)
    decreases |steps|
  {
    PendingInvariant(keep, d, steps);
    if steps != [] {
      var front := steps[..|steps| - 1];
      PendingTreeBootsNext(keep, d, front);
      StepBootsPendingIff(keep, Exec(keep, d, front), steps[|steps| - 1]);
    }
  }

  /** Version 2 on tree B is booted and pending; its apps cannot be pulled, the rollback deploys tree H and cannot pull
      its apps either; after the reboot the record is of neither tree. */
  lemma StrandedExample(keep: bool, d: Device, back: InstallEnv, steps: seq<Step>)
    requires d == Device(Trees("B", "B", false), true,
                         [Row(ExampleTarget("a", "H", 1), true, false, true),
                          Row(ExampleTarget("b", "B", 2), false, true, false)])
    requires back == ExampleInstall(Ok, true, DownloadFailed)
    requires steps == [Complete(CompleteEnv(DownloadFailed, true, back, true, back)), Boot(true, false)]
    ensures Proper(d.log) && BootsPending(d) && !PendingIsReal(Exec(keep, d, steps))
  {
    var front := d.log[..1];
    assert front[..0] == [] && d.log[..1] == front;
    assert PendingTarget(d.log) == Some(ExampleTarget("b", "B", 2));
    assert RollbackTarget(d.log, true) == ExampleTarget("a", "H", 1);
    assert CurrentRow(d.log) == Some(ExampleTarget("a", "H", 1));
    var complete := steps[0].complete;
    assert Finalize(keep, d, DownloadFailed) == Outcome(DownloadFailed, d.(rebooted := false));
    assert EffectOf(d.trees, "H", All, back) == Effect(DownloadFailed, Trees("B", "H", false), None);
    var after := CompleteInstall(keep, d, complete);
    assert after.trees == Trees("B", "H", false) && after.log == d.log;
    assert steps[..1] == [steps[0]] && steps[..1][..0] == [];
    assert Exec(keep, d, []) == d;
    assert Exec(keep, d, steps[..1]) == after;
    assert Exec(keep, d, steps) == Reboot(after, true, false);
  }

  /** Some step of the run is a reboot with `t` recorded as pending. */
  predicate RebootedWith(keep: bool, d: Device, steps: seq<Step>, t: Target) {
    steps != [] &&
    var n := |steps| - 1;
    || (steps[n].Boot? && PendingTarget(Exec(keep, d, steps[..n]).log) == Some(t))
    || RebootedWith(keep, d, steps[..n], t)
  }

  /** A reboot that no finalization has seen and a pending record mean that the device was rebooted with that very record
      in place. */
  lemma {:induction false} RebootedAfterRecord(keep: bool, d: Device, steps: seq<Step>)
    requires Proper(d.log) && (Idle(d) || !d.rebooted)
    ensures var after := Exec(keep, d, steps);
            after.rebooted && !Idle(after) ==> RebootedWith(keep, d, steps, PendingTarget(after.log).value)
    decreases |steps|
  {
    if steps != [] {
      var n := |steps| - 1;
      var before, step := Exec(keep, d, steps[..n]), steps[n];
      var after := Next(keep, before, step);
      RunKeepsProper(keep, d, steps[..n]);
      RebootedAfterRecord(keep, d, steps[..n]);
      if !step.Boot? && after.rebooted && !Idle(after) {
        PendingWhileRebooted(keep, before, step);
      }
    }
  }

  lemma InstallRebooted(keep: bool, d: Device, t: Target, mode: InstallMode, env: InstallEnv)
    requires Proper(d.log) && Idle(d)
    ensures var after := Install(keep, d, t, mode, env).device;
            (after.rebooted ==> Idle(after)) && (!d.rebooted ==> !after.rebooted)
  {
    EffectMeaning(d.trees, t.hash, mode, env);
    PendingAfterRecord(keep, d.log, t, EffectOf(d.trees, t.hash, mode, env).save);
  }

  /** No other step leaves both a reboot to be seen and a record, unless it found them so. */
  lemma PendingWhileRebooted(keep: bool, d: Device, step: Step)
    requires Proper(d.log) && !step.Boot?
    requires Next(keep, d, step).rebooted && !Idle(Next(keep, d, step))
    ensures d.rebooted && PendingTarget(d.log) == PendingTarget(Next(keep, d, step).log)
  {
    match step
    case Pull(t, mode, env) =>
      if Idle(d) {
        InstallRebooted(keep, d, t, mode, env.first);
        var r := Install(keep, d, t, mode, env.first);
        if r.result == Failed {
          FailedStaysIdle(keep, d, t, mode, env.first);
          SaveKeepsProper(keep, d.log, t, Plain);
          InstallRebooted(keep, r.device, Active(d), All, env.second);
        }
      }
    case Cut(t, mode, env, inRollback) =>
      if Idle(d) {
        InstallRebooted(keep, d, t, mode, env.first);
        if Install(keep, d, t, mode, env.first).result == Failed {
          FailedStaysIdle(keep, d, t, mode, env.first);
        }
      }
    case Finish(_) =>
    case Complete(env) => CompleteClearsReboot(keep, d, env);
  }

  lemma CompleteClearsReboot(keep: bool, d: Device, env: CompleteEnv)
    ensures !Idle(d) ==> !CompleteInstall(keep, d, env).rebooted
    ensures Idle(d) ==> CompleteInstall(keep, d, env) == d
  {
  }

  /** Until the reboot that an installation waits for, finalization waits for it too, whatever reboots went before. */
  lemma FinalizationWaits(keep: bool, d: Device, t: Target, mode: InstallMode, env: InstallEnv, apps: Code)
    requires Proper(d.log) && Idle(d) && Install(keep, d, t, mode, env).result == NeedsCompletion
    ensures var after := Install(keep, d, t, mode, env).device;
            !after.rebooted && Finalize(keep, after, apps) == Outcome(NeedCompletion, after)
  {
    EffectMeaning(d.trees, t.hash, mode, env);
    PendingMeaning(keep, d, t, mode, env);
  }

  // ---------------------------------------------------------------------------
  // Result meaning
  // ---------------------------------------------------------------------------

  /** The installation is held back by a firmware update that needs a reboot first. */
  predicate HeldBack(d: Device, t: Target, mode: InstallMode, env: InstallEnv) {
    && env.ready.Verified?
    && d.trees.booted != t.hash && d.trees.next != t.hash
    && env.firmware.verdict == NeedCompletion
    && (mode.All? && env.create ==> env.apps !in {DownloadFailed, InstallFailed})
  }

  lemma PendingMeaning(keep: bool, d: Device, t: Target, mode: InstallMode, env: InstallEnv)
    requires Proper(d.log) && Idle(d)
    ensures var r := Install(keep, d, t, mode, env);
            && (r.result in {NeedsCompletion, AppsNeedCompletion} <==> PendingTarget(r.device.log) == Some(t))
            && (r.result !in {NeedsCompletion, AppsNeedCompletion} <==> Idle(r.device))
            && (r.result == NeedsCompletion ==> PendingTree(r.device.trees) == Some(t.hash))
            && (r.result == AppsNeedCompletion ==> PendingTree(r.device.trees).None? && d.trees.booted == t.hash)
  {
    EffectMeaning(d.trees, t.hash, mode, env);
    PendingAfterRecord(keep, d.log, t, EffectOf(d.trees, t.hash, mode, env).save);
  }

  lemma HeldBackMeaning(keep: bool, d: Device, t: Target, mode: InstallMode, env: InstallEnv)
    requires Proper(d.log) && Idle(d)
    ensures var r := Install(keep, d, t, mode, env);
            && (r.result == BootFwNeedsCompletion <==> HeldBack(d, t, mode, env))
            && (r.result == BootFwNeedsCompletion ==> r.device == d)
  {
    EffectMeaning(d.trees, t.hash, mode, env);
    PendingAfterRecord(keep, d.log, t, EffectOf(d.trees, t.hash, mode, env).save);
  }

  lemma DoneMeaning(keep: bool, d: Device, t: Target, mode: InstallMode, env: InstallEnv)
    requires Proper(d.log) && Install(keep, d, t, mode, env).result == Done
    ensures var r := Install(keep, d, t, mode, env);
            && r.device.log == Save(keep, d.log, t, Current)
            && r.device.trees.next == r.device.trees.booted == d.trees.booted == t.hash && Active(r.device) == t
  {
    EffectMeaning(d.trees, t.hash, mode, env);
    CurrentAfterSave(keep, d.log, t, Current, t.hash);
  }

  /** An installation that does neither saves nothing or leaves the target pending. */
  lemma OtherMeaning(keep: bool, d: Device, t: Target, mode: InstallMode, env: InstallEnv)
    requires Proper(d.log) && Idle(d) && Install(keep, d, t, mode, env).result !in {Done, Failed}
    ensures var r := Install(keep, d, t, mode, env);
            && r.device.trees.booted == d.trees.booted
            && r.device.log ==
               if r.result in {NeedsCompletion, AppsNeedCompletion} then Save(keep, d.log, t, Pending) else d.log
  {
    EffectMeaning(d.trees, t.hash, mode, env);
    PendingAfterRecord(keep, d.log, t, EffectOf(d.trees, t.hash, mode, env).save);
  }

  /** With nothing pending before: `NeedsCompletion` means the target is recorded and its other tree deployed,
      `AppsNeedCompletion` that it is recorded and its tree already runs, `BootFwNeedsCompletion` that nothing changed,
      `Done` that the target runs and boots next. */
  lemma ResultMeaning(keep: bool, d: Device, t: Target, mode: InstallMode, env: InstallEnv)
    requires Proper(d.log) && Idle(d)
    ensures var r := Install(keep, d, t, mode, env);
            && (r.result == NeedsCompletion <==>
                  PendingTarget(r.device.log) == Some(t) && PendingTree(r.device.trees) == Some(t.hash))
            && (r.result == AppsNeedCompletion <==>
                  PendingTarget(r.device.log) == Some(t) && PendingTree(r.device.trees).None? && d.trees.booted == t.hash)
            && (r.result == BootFwNeedsCompletion <==> HeldBack(d, t, mode, env))
            && (r.result == BootFwNeedsCompletion ==> r.device == d)
            && (r.result == Done ==> r.device.trees.next == r.device.trees.booted == t.hash && Active(r.device) == t)
            && (r.result !in {NeedsCompletion, AppsNeedCompletion} ==> Idle(r.device))
  {
    PendingMeaning(keep, d, t, mode, env);
    HeldBackMeaning(keep, d, t, mode, env);
    if Install(keep, d, t, mode, env).result == Done {
      DoneMeaning(keep, d, t, mode, env);
    }
  }

  /** Why PullAndInstall refuses while something is pending: an installation of the booted target that did not would
      undeploy the pending tree and, if its apps fail, leave the record behind. */
  lemma UnguardedInstall(keep: bool, d: Device, t: Target, env: InstallEnv)
    requires Inv(d) && !Idle(d) && PendingTarget(d.log).value.hash != d.trees.booted
    requires t.hash == d.trees.booted && env.ready.Verified? && env.deployed && env.apps == InstallFailed
    ensures !PendingIsReal(Install(keep, d, t, All, env).device)
  {
    PendingAfterSave(keep, d.log, t, Plain);
  }

  // ---------------------------------------------------------------------------
  // Honest rollback
  // ---------------------------------------------------------------------------

  lemma InstalledNameAfterSave(keep: bool, log: Log, t: Target, mode: Mode, name: string)
    requires t.name != name
    ensures NameInstalled(Save(keep, log, t, mode), name) <==> NameInstalled(log, name)
  {
    OthersMembers(log, t, mode);
    if NameInstalled(log, name) {
      var row :| row in log && row.target.name == name && row.installed;
      assert Cleared(row, mode) in Save(keep, log, t, mode);
    }
  }

  /** The log of a rollback that succeeded. */
  lemma RollbackLog(keep: bool, d: Device, t: Target, mode: InstallMode, env: PullEnv)
    requires Proper(d.log) && PullAndInstall(keep, d, t, mode, env).result == InstallRollbackOk
    ensures var after := PullAndInstall(keep, d, t, mode, env).device;
            && after.log == Save(keep, Save(keep, d.log, t, Plain), Active(d), Current)
            && Proper(Save(keep, d.log, t, Plain))
            && after.trees.next == after.trees.booted == d.trees.booted == Active(d).hash
  {
    FailedStaysIdle(keep, d, t, mode, env.first);
    SaveKeepsProper(keep, d.log, t, Plain);
    DoneMeaning(keep, Install(keep, d, t, mode, env.first).device, Active(d), All, env.second);
  }

  /** What the two saves of a rollback leave on record about the target that failed. */
  lemma RollbackRecord(keep: bool, log: Log, t: Target, back: Target)
    ensures var after := Save(keep, Save(keep, log, t, Plain), back, Current);
            && (!Same(t, back) ==> exists row :: row in after && row.target == t && !row.current && !row.pending)
            && (t.name != back.name ==>
                  (Failing(after, t.name) <==>
                   forall row | row in log && row.target.name == t.name && row.installed :: !keep && Same(row.target, t)))
  {
    var first, row := Save(keep, log, t, Plain), SavedRow(keep, log, t, Plain);
    assert row in first;
    OthersMembers(first, back, Current);
    if !Same(t, back) {
      assert Cleared(row, Current) in Save(keep, first, back, Current);
    }
    if t.name != back.name {
      PlainSaveFails(keep, log, t);
      InstalledNameAfterSave(keep, first, back, Current, t.name);
      assert Cleared(row, Current).target.name == t.name;
    }
  }

  /** After `InstallRollbackOk` the old target is current again, its tree is the one that boots next, nothing is
      pending, and the attempted target is on record with no flag set, as failing unless it was installed once. */
  lemma HonestRollback(keep: bool, d: Device, t: Target, mode: InstallMode, env: PullEnv)
    requires Proper(d.log) && PullAndInstall(keep, d, t, mode, env).result == InstallRollbackOk
    ensures var after := PullAndInstall(keep, d, t, mode, env).device;
            && Active(after) == Active(d) && CurrentRow(after.log) == Some(Active(d))
            && Idle(after) && PendingTree(after.trees).None? && after.trees.booted == d.trees.booted
            && (!Same(t, Active(d)) ==>
                  exists row :: row in after.log && row.target == t && !row.current && !row.pending)
            && (t.name != Active(d).name ==>
                  (Failing(after.log, t.name) <==>
                   forall row | row in d.log && row.target.name == t.name && row.installed ::
                     !keep && Same(row.target, t)))
  {
    var first := Save(keep, d.log, t, Plain);
    RollbackLog(keep, d, t, mode, env);
    RollbackRecord(keep, d.log, t, Active(d));
    CurrentRowAfterSave(keep, first, Active(d), Current);
    PendingAfterSave(keep, first, Active(d), Current);
    CurrentAfterSave(keep, first, Active(d), Current, d.trees.booted);
  }

  // ---------------------------------------------------------------------------
  // GetTargetToInstall
  // ---------------------------------------------------------------------------

  datatype SelectArgs = SelectArgs(
    targets: seq<Target>,
    hwid: string,
    version: int,
    name: string,
    allowBad: bool,
    forceSync: bool,
    offline: bool,
    autoDowngrade: bool,
    appsToUpdate: bool)

  datatype SelectStatus =
    | TufTargetNotFound
    | NoUpdate
    | RollbackTargetNotFound
    | BadRollbackTarget
    | UpdateNewVersion
    | UpdateRollback
    | UpdateSyncApps
    | TargetAlreadyInstalled

  datatype Selected = Selected(status: SelectStatus, target: Option<Target>)

  predicate Known(t: Option<Target>) {
    t.Some? && t.value.name != UNKNOWN
  }

  /** The target to sync the apps of the running target with. */
  function SyncTarget(current: Target, args: SelectArgs): Target {
    var found := SelectTarget(args.targets, current.version, "", args.hwid);
    if Known(found) then found.value else current
  }

  /** The running target failed, and it is the one that would be selected. */
  predicate RollsBack(d: Device, args: SelectArgs) {
    var found := SelectTarget(args.targets, args.version, args.name, args.hwid);
    Known(found) && BadTarget(d.log, Active(d).name) && Active(d).name == found.value.name
  }

  /** The first half of GetTargetToInstall ends it or finds a candidate. */
  datatype Choice = Final(selected: Selected) | Proposal(t: Target, rollback: bool)

  function Choose(d: Device, args: SelectArgs): Choice {
    var found := SelectTarget(args.targets, args.version, args.name, args.hwid);
    if !Known(found) then Final(Selected(TufTargetNotFound, None))
    else if !args.autoDowngrade && args.version == -1 && args.name == "" && found.value.version < Active(d).version
    then Final(Selected(NoUpdate, None))
    else if !RollsBack(d, args) then Proposal(found.value, false)
    else if RollbackTarget(d.log, true).name == UNKNOWN then Final(Selected(RollbackTargetNotFound, None))
    else Proposal(RollbackTarget(d.log, true), true)
  }

  /** The running target stays, with its apps as they are or synced. */
  function Stays(current: Target, args: SelectArgs): Selected {
    if args.forceSync || args.appsToUpdate then Selected(UpdateSyncApps, Some(SyncTarget(current, args)))
    else Selected(if args.offline then TargetAlreadyInstalled else NoUpdate, None)
  }

  /** The second half installs the candidate or syncs the apps of the running target. */
  function Decide(d: Device, args: SelectArgs, candidate: Target, rollback: bool): Selected {
    var bad := BadTarget(d.log, candidate.name);
    if rollback && bad then Selected(BadRollbackTarget, None)
    else if candidate.name != Active(d).name && (!bad || args.allowBad)
    then Selected(if rollback then UpdateRollback else UpdateNewVersion, Some(candidate))
    else Stays(Active(d), args)
  }

  function GetTargetToInstall(d: Device, args: SelectArgs): Selected {
    match Choose(d, args)
    case Final(selected) => selected
    case Proposal(t, rollback) => Decide(d, args, t, rollback)
  }

  /** The branch the code comments as impossible is, and a rollback that finds a candidate is always to another
      target that was installed once. */
  lemma RollbackIsSound(d: Device, args: SelectArgs)
    ensures GetTargetToInstall(d, args).status != BadRollbackTarget
    ensures RollsBack(d, args) && RollbackTarget(d.log, true).name != UNKNOWN
            && (args.autoDowngrade || args.version != -1 || args.name != ""
                || SelectTarget(args.targets, -1, "", args.hwid).value.version >= Active(d).version) ==>
              && GetTargetToInstall(d, args) == Selected(UpdateRollback, Some(RollbackTarget(d.log, true)))
              && RollbackTarget(d.log, true).name != Active(d).name
              && NameInstalled(d.log, RollbackTarget(d.log, true).name)
  {
    if RollbackTarget(d.log, true).name != UNKNOWN {
      RollbackTargetIsGood(d.log, true);
    }
  }

  // ---------------------------------------------------------------------------
  // No re-selection of failures
  // ---------------------------------------------------------------------------

  /** The step reports that a target of this name was installed. */
  predicate Succeeds(keep: bool, d: Device, step: Step, name: string) {
    match step
    case Pull(t, mode, env) =>
      var r := PullAndInstall(keep, d, t, mode, env).result;
      (r == Done && t.name == name) || (r == InstallRollbackOk && Active(d).name == name)
    case Cut(t, mode, env, inRollback) =>
      inRollback && PullAndInstall(keep, d, t, mode, env).result == Done && t.name == name
    case Boot(_, _) => false
    case Finish(apps) => !Idle(d) && Finalize(keep, d, apps).result == Ok && PendingTarget(d.log).value.name == name
    case Complete(env) =>
      !Idle(d) &&
      var final := Finalize(keep, d, env.apps);
      || (final.result == Ok && PendingTarget(d.log).value.name == name)
      || (final.result == InstallFailed && Active(final.device).name == name
          && Install(keep, final.device, Active(final.device), All, env.sync).result == Done)
      || (final.result in {CustomError, DownloadFailed} && RollbackTarget(final.device.log, true).name == name
          && Install(keep, final.device, RollbackTarget(final.device.log, true), All, env.back).result == Done)
  }

  lemma InstallKeepsFailing(keep: bool, d: Device, t: Target, mode: InstallMode, env: InstallEnv, name: string)
    requires Failing(d.log, name) && !(Install(keep, d, t, mode, env).result == Done && t.name == name)
    ensures Failing(Install(keep, d, t, mode, env).device.log, name)
  {
    if env.ready.Verified? {
      EffectMeaning(d.trees, t.hash, mode, env);
      FailingAfterRecord(keep, d.log, t, EffectOf(d.trees, t.hash, mode, env).save, name);
    }
  }

  lemma FinalizeKeepsFailing(keep: bool, d: Device, apps: Code, name: string)
    requires Failing(d.log, name) && !Succeeds(keep, d, Finish(apps), name)
    ensures Failing(Finalize(keep, d, apps).device.log, name)
  {
    if !Idle(d) {
      var t := PendingTarget(d.log).value;
      FailingAfterSave(keep, d.log, t, Plain, name);
      if t.name != name {
        FailingAfterSave(keep, d.log, t, Current, name);
      }
    }
  }

  lemma PullKeepsFailing(keep: bool, d: Device, t: Target, mode: InstallMode, env: PullEnv, name: string)
    requires Failing(d.log, name) && !Succeeds(keep, d, Pull(t, mode, env), name)
    ensures Failing(PullAndInstall(keep, d, t, mode, env).device.log, name)
  {
    if Idle(d) && env.proceeds {
      InstallKeepsFailing(keep, d, t, mode, env.first, name);
      var r := Install(keep, d, t, mode, env.first);
      if r.result == Failed && env.found {
        InstallKeepsFailing(keep, r.device, Active(d), All, env.second, name);
      }
    }
  }

  lemma CompleteKeepsFailing(keep: bool, d: Device, env: CompleteEnv, name: string)
    requires Failing(d.log, name) && !Succeeds(keep, d, Complete(env), name)
    ensures Failing(CompleteInstall(keep, d, env).log, name)
  {
    if !Idle(d) {
      FinalizeKeepsFailing(keep, d, env.apps, name);
      var final := Finalize(keep, d, env.apps);
      if final.result == InstallFailed {
        InstallKeepsFailing(keep, final.device, Active(final.device), All, env.sync, name);
      }
      if final.result in {CustomError, DownloadFailed} {
        InstallKeepsFailing(keep, final.device, RollbackTarget(final.device.log, true), All, env.back, name);
      }
    }
  }

  lemma StepKeepsFailing(keep: bool, d: Device, step: Step, name: string)
    requires Failing(d.log, name) && !Succeeds(keep, d, step, name)
    ensures Failing(Next(keep, d, step).log, name)
  {
    match step
    case Pull(t, mode, env) => PullKeepsFailing(keep, d, t, mode, env, name);
    case Cut(t, mode, env, inRollback) =>
      if inRollback && Idle(d) && env.proceeds {
        InstallKeepsFailing(keep, d, t, mode, env.first, name);
      }
    case Boot(_, _) =>
    case Finish(apps) => FinalizeKeepsFailing(keep, d, apps, name);
    case Complete(env) => CompleteKeepsFailing(keep, d, env, name);
  }

  /** No step of the run reports that a target of this name was installed. */
  predicate NeverInstalled(keep: bool, d: Device, steps: seq<Step>, name: string) {
    steps != [] ==>
      var n := |steps| - 1;
      NeverInstalled(keep, d, steps[..n], name) && !Succeeds(keep, Exec(keep, d, steps[..n]), steps[n], name)
  }

  lemma {:induction false} RunKeepsFailing(keep: bool, d: Device, steps: seq<Step>, name: string)
    requires Failing(d.log, name) && NeverInstalled(keep, d, steps, name)
    ensures Failing(Exec(keep, d, steps).log, name)
    decreases |steps|
  {
    if steps != [] {
      var n := |steps| - 1;
      RunKeepsFailing(keep, d, steps[..n], name);
      StepKeepsFailing(keep, Exec(keep, d, steps[..n]), steps[n], name);
    }
  }

  /** In every run, with failures, power cuts, reboots and fallbacks: a target that was recorded as failing and that no
      step has installed since is selected neither as a new version nor to roll back to while nothing is pending. */
  lemma NoReselection(keep: bool, d: Device, steps: seq<Step>, name: string, args: SelectArgs)
    requires Failing(d.log, name) && NeverInstalled(keep, d, steps, name)
    requires Idle(Exec(keep, d, steps)) && !args.allowBad
    ensures var s := GetTargetToInstall(Exec(keep, d, steps), args);
            s.status in {UpdateNewVersion, UpdateRollback} ==> s.target.value.name != name
  {
    RunKeepsFailing(keep, d, steps, name);
    var now := Exec(keep, d, steps);
    BadIsFailing(now.log, name);
    RollbackIsSound(now, args);
  }

  // ---------------------------------------------------------------------------
  // Version monotonicity of the daemon
  // ---------------------------------------------------------------------------

  /** One round of the daemon loop, with the reboot and the start of the daemon it may lead to. */
  datatype CycleEnv = CycleEnv(
    targets: seq<Target>,
    hwid: string,
    appsToUpdate: bool,
    pull: PullEnv,
    up: bool,
    confirmed: bool,
    apps: Code)

  function DaemonArgs(env: CycleEnv): SelectArgs {
    SelectArgs(env.targets, env.hwid, -1, "", false, false, false, false, env.appsToUpdate)
  }

  function Chosen(d: Device, env: CycleEnv): Selected {
    GetTargetToInstall(d, DaemonArgs(env))
  }

  function Pulled(keep: bool, d: Device, env: CycleEnv): Outcome<Status>
    requires Chosen(d, env).target.Some?
  {
    PullAndInstall(keep, d, Chosen(d, env).target.value, All, env.pull)
  }

  /** The round ends with a reboot. */
  predicate Reboots(keep: bool, d: Device, env: CycleEnv) {
    Chosen(d, env).target.Some? && Pulled(keep, d, env).result in {NeedsCompletion, BootFwNeedsCompletion}
  }

  /** The start of the daemon: finalize what is pending. */
  function DaemonStart(keep: bool, d: Device, apps: Code): Device {
    Finalize(keep, d, apps).device
  }

  function Cycle(keep: bool, d: Device, env: CycleEnv): Device {
    if Chosen(d, env).target.None? then d
    else if Reboots(keep, d, env)
    then DaemonStart(keep, Reboot(Pulled(keep, d, env).device, env.up, env.confirmed), env.apps)
    else Pulled(keep, d, env).device
  }

  ghost predicate GoodTargets(env: CycleEnv) {
    AscendingVersions(env.targets) && forall t | t in env.targets :: t.name != ""
  }

  /** A new version is a highest one for the hardware id, and neither it nor a target to sync with is below the
      running version. */
  lemma ChosenVersion(d: Device, env: CycleEnv)
    requires GoodTargets(env)
    ensures var s := Chosen(d, env);
            && (s.status == UpdateNewVersion ==>
                  && s.target.value in env.targets && s.target.value.hwid == env.hwid
                  && s.target.value.version >= Active(d).version
                  && forall t | t in env.targets && t.hwid == env.hwid :: t.version <= s.target.value.version)
            && (s.status == UpdateSyncApps && Active(d).version != -1 ==> s.target.value.version == Active(d).version)
            && (s.target.Some? ==> s.status in {UpdateNewVersion, UpdateRollback, UpdateSyncApps})
  {
    DefaultChoice(env.targets, env.hwid);
    FirstForMatches(env.targets, Active(d).version, "", env.hwid);
  }

  /** Once the selected target runs as installed, and the others that failed still count as such, the same targets offer
      nothing more, unless apps have to be synced. */
  lemma NothingMoreAfter(d: Device, after: Device, t: Target, args: SelectArgs)
    requires Idle(d) && args.version == -1 && args.name == "" && !args.allowBad && !args.forceSync
    requires GetTargetToInstall(d, args).status in {UpdateNewVersion, UpdateRollback}
    requires GetTargetToInstall(d, args).target == Some(t)
    requires Idle(after) && Active(after) == t && NameInstalled(after.log, t.name)
    requires var found := SelectTarget(args.targets, -1, "", args.hwid);
             found.Some? && found.value.name != t.name && Failing(d.log, found.value.name) ==>
               Failing(after.log, found.value.name)
    ensures GetTargetToInstall(after, args.(appsToUpdate := false)).target.None?
    ensures GetTargetToInstall(after, args.(appsToUpdate := true)).status !in {UpdateNewVersion, UpdateRollback}
  {
    var found := SelectTarget(args.targets, -1, "", args.hwid).value;
    if found.name != t.name {
      BadIsFailing(d.log, found.name);
      BadIsFailing(after.log, found.name);
    }
  }

  lemma SavedIsInstalled(keep: bool, log: Log, t: Target)
    requires Proper(log)
    ensures var after := Save(keep, log, t, Current);
            NameInstalled(after, t.name) && PendingTarget(after).None?
  {
    assert SavedRow(keep, log, t, Current) in Save(keep, log, t, Current);
    PendingAfterSave(keep, log, t, Current);
  }

  /** After a selected target was installed, the same targets offer nothing more, unless apps have to be synced. */
  lemma NothingMoreToInstall(keep: bool, d: Device, t: Target, env: InstallEnv, args: SelectArgs)
    requires Proper(d.log) && Idle(d) && args.version == -1 && args.name == "" && !args.allowBad && !args.forceSync
    requires GetTargetToInstall(d, args).status in {UpdateNewVersion, UpdateRollback}
    requires GetTargetToInstall(d, args).target == Some(t) && Install(keep, d, t, All, env).result == Done
    ensures var after := Install(keep, d, t, All, env).device;
            && GetTargetToInstall(after, args.(appsToUpdate := false)).target.None?
            && GetTargetToInstall(after, args.(appsToUpdate := true)).status !in {UpdateNewVersion, UpdateRollback}
  {
    var after, found := Install(keep, d, t, All, env).device, SelectTarget(args.targets, -1, "", args.hwid);
    DoneMeaning(keep, d, t, All, env);
    SavedIsInstalled(keep, d.log, t);
    if found.Some? && found.value.name != t.name && Failing(d.log, found.value.name) {
      FailingAfterSave(keep, d.log, t, Current, found.value.name);
    }
    NothingMoreAfter(d, after, t, args);
  }

  /** The same of a round of the daemon. */
  lemma RoundLeavesNothing(keep: bool, d: Device, env: CycleEnv)
    requires Proper(d.log) && Chosen(d, env).status in {UpdateNewVersion, UpdateRollback} && Chosen(d, env).target.Some?
    requires Pulled(keep, d, env).result == Done
    ensures var after := Pulled(keep, d, env).device;
            && Active(after) == Chosen(d, env).target.value
            && Chosen(after, env.(appsToUpdate := false)).target.None?
            && Chosen(after, env.(appsToUpdate := true)).status !in {UpdateNewVersion, UpdateRollback}
  {
    var t := Chosen(d, env).target.value;
    DoneMeaning(keep, d, t, All, env.pull.first);
    NothingMoreToInstall(keep, d, t, env.pull.first, DaemonArgs(env));
  }

  /** The same of a round that reboots, if the new tree comes up and finalization completes it. */
  lemma RebootLeavesNothing(keep: bool, d: Device, env: CycleEnv)
    requires Proper(d.log) && Chosen(d, env).status in {UpdateNewVersion, UpdateRollback} && Chosen(d, env).target.Some?
    requires Pulled(keep, d, env).result == NeedsCompletion
    requires Finalize(keep, Reboot(Pulled(keep, d, env).device, env.up, env.confirmed), env.apps).result == Ok
    ensures var after := Cycle(keep, d, env);
            && env.up && PendingTarget(Pulled(keep, d, env).device.log) == Some(Chosen(d, env).target.value)
            && Active(after) == Chosen(d, env).target.value
            && Chosen(after, env.(appsToUpdate := false)).target.None?
            && Chosen(after, env.(appsToUpdate := true)).status !in {UpdateNewVersion, UpdateRollback}
  {
    var t, args := Chosen(d, env).target.value, DaemonArgs(env);
    var found, pending := SelectTarget(args.targets, -1, "", args.hwid), Save(keep, d.log, t, Pending);
    BootMeaning(keep, d, t, env.pull, env.up, env.confirmed, env.apps);
    PulledPending(keep, d, t, env.pull);
    SaveKeepsProper(keep, d.log, t, Pending);
    SavedIsInstalled(keep, pending, t);
    if found.Some? && found.value.name != t.name && Failing(d.log, found.value.name) {
      FailingAfterSave(keep, d.log, t, Pending, found.value.name);
      FailingAfterSave(keep, pending, t, Current, found.value.name);
    }
    NothingMoreAfter(d, Cycle(keep, d, env), t, args);
  }

  /** How the apps start after the reboot matters only then. */
  lemma RoundBeforeStart(keep: bool, d: Device, env: CycleEnv, apps: Code)
    requires Proper(d.log) && Chosen(d, env).target.Some? && Pulled(keep, d, env).result == NeedsCompletion
    ensures var after, started := Pulled(keep, d, env).device, env.(apps := apps);
            && Chosen(d, started) == Chosen(d, env) && Pulled(keep, d, started) == Pulled(keep, d, env)
            && Cycle(keep, d, started) == DaemonStart(keep, Reboot(after, env.up, env.confirmed), apps)
            && PendingTarget(after.log) == Some(Chosen(d, env).target.value)
  {
    assert DaemonArgs(env.(apps := apps)) == DaemonArgs(env);
    PulledPending(keep, d, Chosen(d, env).target.value, env.pull);
    PendingAfterSave(keep, d.log, Chosen(d, env).target.value, Pending);
  }

  // ---------------------------------------------------------------------------
  // What a round leads to, in terms of the device and the inputs
  // ---------------------------------------------------------------------------

  predicate FinalOk(apps: Code) {
    apps !in {DownloadFailed, CustomError, Threw}
  }

  /** The current row is that of another target with the same tree. */
  predicate OtherRow(log: Log, t: Target) {
    CurrentRow(log).Some? && CurrentRow(log).value.hash == t.hash && !Same(CurrentRow(log).value, t)
  }

  /** What runs on the tree of a target that is not current. */
  function Claimed(log: Log, t: Target): Target {
    if OtherRow(log, t) then CurrentRow(log).value else t
  }

  /** The booted tree can be installed again: it is the next one, or it can be deployed. */
  predicate TreeHere(trees: Trees, env: InstallEnv) {
    trees.next == trees.booted || env.deployed
  }

  /** The target installs on the booted tree. */
  predicate Here(trees: Trees, hash: Hash, env: InstallEnv) {
    hash == trees.booted && TreeHere(trees, env) && env.apps !in {DownloadFailed, InstallFailed, Threw}
  }

  /** It fails on the booted tree, for another reason than the pull of its apps. */
  predicate FailsHere(trees: Trees, hash: Hash, env: InstallEnv) {
    hash == trees.booted && (!TreeHere(trees, env) || env.apps in {InstallFailed, Threw})
  }

  /** A reboot is due: the firmware waits for one, or the other tree can be deployed; and no app fails before. */
  predicate NeedsBoot(trees: Trees, hash: Hash, env: InstallEnv) {
    && hash != trees.booted
    && (env.firmware.verdict == NeedCompletion || (env.firmware.verdict != InstallFailed && env.deployed))
    && !(env.create && env.apps in {DownloadFailed, InstallFailed})
  }

  /** It is due for the firmware only. */
  predicate Held(trees: Trees, hash: Hash, env: InstallEnv) {
    NeedsBoot(trees, hash, env) && env.firmware.verdict == NeedCompletion && trees.next != hash
  }

  lemma EffectGuards(trees: Trees, hash: Hash, env: InstallEnv)
    ensures var e := EffectOf(trees, hash, All, env);
            && (e.save == Some(Current) <==> Here(trees, hash, env))
            && (e.save == Some(Pending) <==> NeedsBoot(trees, hash, env) && !Held(trees, hash, env))
            && (e.code == NeedCompletion && e.save.None? <==> Held(trees, hash, env))
            && (hash == trees.booted ==> (e.save == Some(Plain) <==> FailsHere(trees, hash, env)))
            && (hash == trees.booted ==> e.trees.next == if TreeHere(trees, env) then trees.booted else trees.next)
  {
  }

  /** The status of an installation, by its inputs. */
  lemma InstallGuards(keep: bool, d: Device, t: Target, env: InstallEnv)
    requires Proper(d.log) && Idle(d) && env.ready.Verified?
    ensures var r := Install(keep, d, t, All, env).result;
            && (r == Done <==> Here(d.trees, t.hash, env))
            && (r == BootFwNeedsCompletion <==> Held(d.trees, t.hash, env))
            && (r == NeedsCompletion <==> NeedsBoot(d.trees, t.hash, env) && !Held(d.trees, t.hash, env))
            && r != AppsNeedCompletion
            && (t.hash == d.trees.booted ==> (r == Failed <==> FailsHere(d.trees, t.hash, env)))
  {
    EffectGuards(d.trees, t.hash, env);
    EffectMeaning(d.trees, t.hash, All, env);
    PendingAfterRecord(keep, d.log, t, EffectOf(d.trees, t.hash, All, env).save);
  }

  /** After a failure on the booted tree, the rollback to the old target is recorded, whether it succeeds or fails. */
  predicate RollbackSaves(trees: Trees, env: PullEnv) {
    && env.found && env.second.ready.Verified?
    && !((TreeHere(trees, env.first) || env.second.deployed) && env.second.apps == DownloadFailed)
  }

  /** The failed target is left as the one that runs. */
  predicate LeavesFailed(d: Device, t: Target, env: PullEnv) {
    FailsHere(d.trees, t.hash, env.first) && !RollbackSaves(d.trees, env) && !OtherRow(d.log, t)
  }

  /** The two saves of a rollback, as far as they come. */
  lemma RollbackSaveRuns(keep: bool, log: Log, t: Target, booted: Hash)
    requires Proper(log)
    ensures var old_ := CurrentTarget(log, booted);
            var first := Save(keep, log, t, Plain);
            && Proper(first) && old_.hash == booted
            && CurrentTarget(first, booted) == (if t.hash == booted then Claimed(log, t) else old_)
            && CurrentTarget(Save(keep, first, old_, Plain), booted) == old_
            && CurrentTarget(Save(keep, first, old_, Current), booted) == old_
  {
    var old_ := CurrentTarget(log, booted);
    var first := Save(keep, log, t, Plain);
    SaveKeepsProper(keep, log, t, Plain);
    CurrentAfterSave(keep, log, t, Plain, booted);
    CurrentTargetIsBooted(log, booted);
    CurrentRowAfterSave(keep, log, t, Plain);
    CurrentAfterSave(keep, first, old_, Plain, booted);
    CurrentAfterSave(keep, first, old_, Current, booted);
  }

  /** What runs after the rollback was tried. */
  lemma SecondRuns(keep: bool, d: Device, t: Target, env: PullEnv)
    requires Proper(d.log) && Idle(d) && Install(keep, d, t, All, env.first).result == Failed
    ensures var first := Install(keep, d, t, All, env.first).device;
            var second := Install(keep, first, Active(d), All, env.second);
            Active(second.device) == if second.result in {Done, Failed} then Active(d) else Active(first)
  {
    var first, old_ := Install(keep, d, t, All, env.first).device, Active(d);
    FailedStaysIdle(keep, d, t, All, env.first);
    RollbackSaveRuns(keep, d.log, t, d.trees.booted);
    match Install(keep, first, old_, All, env.second).result {
      case Done => DoneMeaning(keep, first, old_, All, env.second);
      case Failed => FailedStaysIdle(keep, first, old_, All, env.second);
      case _ =>
        OtherMeaning(keep, first, old_, All, env.second);
        PendingMeaning(keep, first, old_, All, env.second);
    }
  }

  lemma SecondSaves(keep: bool, d: Device, t: Target, env: PullEnv)
    requires Proper(d.log) && Idle(d) && t.hash == d.trees.booted && env.first.ready.Verified?
    requires Install(keep, d, t, All, env.first).result == Failed
    ensures var first := Install(keep, d, t, All, env.first).device;
            env.found && Install(keep, first, Active(d), All, env.second).result in {Done, Failed} <==>
            RollbackSaves(d.trees, env)
  {
    var first, old_ := Install(keep, d, t, All, env.first).device, Active(d);
    FailedStaysIdle(keep, d, t, All, env.first);
    SaveKeepsProper(keep, d.log, t, Plain);
    CurrentTargetIsBooted(d.log, d.trees.booted);
    EffectGuards(d.trees, t.hash, env.first);
    if env.second.ready.Verified? {
      InstallGuards(keep, first, old_, env.second);
    }
  }

  /** What runs after an installation that failed, and its rollback. */
  lemma FailedRuns(keep: bool, d: Device, t: Target, env: PullEnv)
    requires Proper(d.log) && Idle(d) && env.proceeds && env.first.ready.Verified?
    requires Install(keep, d, t, All, env.first).result == Failed
    ensures Active(PullAndInstall(keep, d, t, All, env).device) == if LeavesFailed(d, t, env) then t else Active(d)
  {
    InstallGuards(keep, d, t, env.first);
    FailedStaysIdle(keep, d, t, All, env.first);
    RollbackSaveRuns(keep, d.log, t, d.trees.booted);
    SecondRuns(keep, d, t, env);
    if t.hash == d.trees.booted {
      SecondSaves(keep, d, t, env);
    }
  }

  /** What runs after the reboot that an installation asked for, and after the finalization: the new target if that
      completes it; the old one after a fallback; and if the apps did not start, the new target, unless the current row
      has its tree. */
  lemma BootMeaning(keep: bool, d: Device, t: Target, env: PullEnv, up: bool, confirmed: bool, apps: Code)
    requires Proper(d.log) && Idle(d) && PullAndInstall(keep, d, t, All, env).result == NeedsCompletion
    ensures var after := Reboot(PullAndInstall(keep, d, t, All, env).device, up, confirmed);
            var final := Finalize(keep, after, apps);
            && PendingTarget(after.log) == Some(t)
            && (!up ==> final.result == InstallFailed && Idle(final.device) && Active(final.device) == Active(d))
            && (final.result == Ok ==> up && Active(final.device) == t && CurrentRow(final.device.log) == Some(t))
            && (up && final.result != Ok ==>
                  Active(final.device) ==
                  if CurrentRow(d.log).Some? && CurrentRow(d.log).value.hash == t.hash && !Same(CurrentRow(d.log).value, t)
                  then CurrentRow(d.log).value else t)
  {
    PulledPending(keep, d, t, env);
    BootMeaningFrom(keep, d, PullAndInstall(keep, d, t, All, env).device, t, up, confirmed, apps);
  }

  lemma PulledPending(keep: bool, d: Device, t: Target, env: PullEnv)
    requires Proper(d.log) && Idle(d) && PullAndInstall(keep, d, t, All, env).result == NeedsCompletion
    ensures var after := PullAndInstall(keep, d, t, All, env).device;
            && after.log == Save(keep, d.log, t, Pending)
            && after.trees.booted == d.trees.booted != t.hash == after.trees.next
  {
    OtherMeaning(keep, d, t, All, env.first);
    PendingMeaning(keep, d, t, All, env.first);
  }

  lemma BootMeaningFrom(keep: bool, d: Device, d1: Device, t: Target, up: bool, confirmed: bool, apps: Code)
    requires Proper(d.log) && d1.log == Save(keep, d.log, t, Pending)
    requires d1.trees.booted == d.trees.booted != t.hash == d1.trees.next
    ensures var after := Reboot(d1, up, confirmed);
            var final := Finalize(keep, after, apps);
            && PendingTarget(after.log) == Some(t)
            && (!up ==> final.result == InstallFailed && Idle(final.device) && Active(final.device) == Active(d))
            && (final.result == Ok ==> up && Active(final.device) == t && CurrentRow(final.device.log) == Some(t))
            && (up && final.result != Ok ==>
                  Active(final.device) ==
                  if CurrentRow(d.log).Some? && CurrentRow(d.log).value.hash == t.hash && !Same(CurrentRow(d.log).value, t)
                  then CurrentRow(d.log).value else t)
  {
    BootLog(keep, d.log, t, d.trees.booted);
  }

  /** The answers of the log along that way. */
  lemma BootLog(keep: bool, log: Log, t: Target, booted: Hash)
    requires Proper(log)
    ensures var first := Save(keep, log, t, Pending);
            var row := CurrentRow(log);
            var other := if row.Some? && row.value.hash == t.hash && !Same(row.value, t) then row.value else t;
            && PendingTarget(first) == Some(t)
            && CurrentTarget(first, t.hash) == other
            && PendingTarget(Save(keep, first, t, Plain)) == None
            && CurrentTarget(Save(keep, first, t, Plain), t.hash) == other
            && CurrentTarget(Save(keep, first, t, Current), t.hash) == t
            && CurrentRow(Save(keep, first, t, Current)) == Some(t)
            && (booted != t.hash ==>
                  CurrentTarget(Save(keep, first, t, Plain), booted) == CurrentTarget(log, booted))
  {
    var first := Save(keep, log, t, Pending);
    SaveKeepsProper(keep, log, t, Pending);
    PendingAfterSave(keep, log, t, Pending);
    CurrentRowAfterSave(keep, log, t, Pending);
    CurrentAfterSave(keep, log, t, Pending, t.hash);
    PendingAfterSave(keep, first, t, Plain);
    CurrentAfterSave(keep, first, t, Plain, t.hash);
    CurrentAfterSave(keep, first, t, Current, t.hash);
    CurrentRowAfterSave(keep, first, t, Current);
    if booted != t.hash {
      CurrentAfterSave(keep, log, t, Pending, booted);
      CurrentAfterSave(keep, first, t, Plain, booted);
    }
  }

  /** The round starts an installation. */
  predicate Starts(d: Device, env: CycleEnv) {
    Chosen(d, env).target.Some? && Idle(d) && env.pull.proceeds && env.pull.first.ready.Verified?
  }

  /** The round starts an installation and reboots for the firmware, into a tree that was left deployed. */
  predicate BootsLeftover(d: Device, env: CycleEnv) {
    && Starts(d, env) && Held(d.trees, Chosen(d, env).target.value.hash, env.pull.first)
    && env.up && PendingTree(d.trees).Some?
  }

  /** The round reboots into the tree it installed, which comes up. */
  predicate BootsNew(d: Device, env: CycleEnv) {
    && Starts(d, env) && env.up
    && NeedsBoot(d.trees, Chosen(d, env).target.value.hash, env.pull.first)
    && !Held(d.trees, Chosen(d, env).target.value.hash, env.pull.first)
  }

  /** So it does, the apps do not start, and the current row is that of another target with this tree. */
  predicate StartFails(d: Device, env: CycleEnv) {
    BootsNew(d, env) && !FinalOk(env.apps) && OtherRow(d.log, Chosen(d, env).target.value)
  }

  /** The round ends with the chosen target running. */
  predicate Takes(d: Device, env: CycleEnv) {
    Starts(d, env) &&
    var t := Chosen(d, env).target.value;
    || Here(d.trees, t.hash, env.pull.first)
    || (BootsNew(d, env) && !StartFails(d, env))
    || LeavesFailed(d, t, env.pull)
  }

  /** What runs after a round. */
  function RunsNext(d: Device, env: CycleEnv): Target {
    if Takes(d, env) then Chosen(d, env).target.value
    else if StartFails(d, env) then CurrentRow(d.log).value
    else if BootsLeftover(d, env) then CurrentTarget(d.log, d.trees.next)
    else Active(d)
  }

  lemma HeldRuns(keep: bool, d: Device, env: CycleEnv)
    requires Proper(d.log) && Starts(d, env) && Held(d.trees, Chosen(d, env).target.value.hash, env.pull.first)
    ensures Active(Cycle(keep, d, env)) == if env.up then CurrentTarget(d.log, d.trees.next) else Active(d)
  {
    var t := Chosen(d, env).target.value;
    InstallGuards(keep, d, t, env.pull.first);
    HeldBackMeaning(keep, d, t, All, env.pull.first);
  }

  lemma HereRuns(keep: bool, d: Device, env: CycleEnv)
    requires Proper(d.log) && Starts(d, env) && Here(d.trees, Chosen(d, env).target.value.hash, env.pull.first)
    ensures Active(Cycle(keep, d, env)) == Chosen(d, env).target.value
  {
    var t := Chosen(d, env).target.value;
    InstallGuards(keep, d, t, env.pull.first);
    DoneMeaning(keep, d, t, All, env.pull.first);
  }

  lemma NewTreeRuns(keep: bool, d: Device, env: CycleEnv)
    requires Proper(d.log) && Starts(d, env)
    requires var hash := Chosen(d, env).target.value.hash;
             NeedsBoot(d.trees, hash, env.pull.first) && !Held(d.trees, hash, env.pull.first)
    ensures var t := Chosen(d, env).target.value;
            Active(Cycle(keep, d, env)) ==
            if !env.up then Active(d) else if FinalOk(env.apps) then t else Claimed(d.log, t)
  {
    var t := Chosen(d, env).target.value;
    InstallGuards(keep, d, t, env.pull.first);
    BootMeaning(keep, d, t, env.pull, env.up, env.confirmed, env.apps);
  }

  lemma FailureRuns(keep: bool, d: Device, env: CycleEnv)
    requires Proper(d.log) && Starts(d, env)
    requires var hash := Chosen(d, env).target.value.hash;
             !Here(d.trees, hash, env.pull.first) && !NeedsBoot(d.trees, hash, env.pull.first)
    ensures var t := Chosen(d, env).target.value;
            Active(Cycle(keep, d, env)) == if LeavesFailed(d, t, env.pull) then t else Active(d)
  {
    var t := Chosen(d, env).target.value;
    InstallGuards(keep, d, t, env.pull.first);
    if Install(keep, d, t, All, env.pull.first).result == Failed {
      FailedRuns(keep, d, t, env.pull);
    } else {
      OtherMeaning(keep, d, t, All, env.pull.first);
    }
  }

  /** Exactly what runs after a round of the daemon, over the device and the inputs. */
  lemma CycleRuns(keep: bool, d: Device, env: CycleEnv)
    requires Proper(d.log)
    ensures Active(Cycle(keep, d, env)) == RunsNext(d, env)
  {
    if Starts(d, env) {
      var hash := Chosen(d, env).target.value.hash;
      if Here(d.trees, hash, env.pull.first) {
        HereRuns(keep, d, env);
      } else if Held(d.trees, hash, env.pull.first) {
        HeldRuns(keep, d, env);
      } else if NeedsBoot(d.trees, hash, env.pull.first) {
        NewTreeRuns(keep, d, env);
      } else {
        FailureRuns(keep, d, env);
      }
    }
  }

  /** Exactly when the running version drops in a round, over the device and the inputs. */
  lemma VersionDropsIff(keep: bool, d: Device, env: CycleEnv)
    requires Proper(d.log)
    ensures Active(Cycle(keep, d, env)).version < Active(d).version <==> CycleLowers(d, env)
  {
    CycleRuns(keep, d, env);
  }

  predicate CycleLowers(d: Device, env: CycleEnv) {
    var version := Active(d).version;
    || (Takes(d, env) && Chosen(d, env).target.value.version < version)
    || (StartFails(d, env) && CurrentRow(d.log).value.version < version)
    || (BootsLeftover(d, env) && CurrentTarget(d.log, d.trees.next).version < version)
  }

  /** With sorted targets the first way is a selected rollback, or a sync of a target of version -1. */
  lemma VersionDrops(d: Device, env: CycleEnv)
    requires GoodTargets(env)
    ensures CycleLowers(d, env) && !StartFails(d, env) && !BootsLeftover(d, env) ==>
              || Chosen(d, env).status == UpdateRollback
              || (Chosen(d, env).status == UpdateSyncApps && Active(d).version == -1)
  {
    ChosenVersion(d, env);
  }

  // ---------------------------------------------------------------------------
  // Runs of the daemon, with power cuts and restarts
  // ---------------------------------------------------------------------------

  /** `Restart`: the device reboots between two rounds; `Rerun`: only the daemon is started again; `CutRound`: power is
      lost in the installation of a round, and the device comes up again. */
  datatype Event =
    | Round(env: CycleEnv)
    | CutRound(env: CycleEnv, inRollback: bool)
    | Restart(up: bool, confirmed: bool, apps: Code)
    | Rerun(apps: Code)

  /** The device when power is lost. */
  function CutIn(keep: bool, d: Device, env: CycleEnv, inRollback: bool): Device {
    if Chosen(d, env).target.None? then d
    else CutDevice(keep, d, Chosen(d, env).target.value, All, env.pull, inRollback)
  }

  function AfterEvent(keep: bool, d: Device, event: Event): Device {
    match event
    case Round(env) => Cycle(keep, d, env)
    case CutRound(env, inRollback) =>
      DaemonStart(keep, Reboot(CutIn(keep, d, env, inRollback), env.up, env.confirmed), env.apps)
    case Restart(up, confirmed, apps) => DaemonStart(keep, Reboot(d, up, confirmed), apps)
    case Rerun(apps) => DaemonStart(keep, d, apps)
  }

  /** What runs after the start of the daemon: the pending target if it is booted and its apps start, or if they do not
      and no current row has its tree; otherwise what ran before. */
  function StartRuns(d: Device, apps: Code): Target {
    if Idle(d) || PendingTarget(d.log).value.hash != d.trees.booted then Active(d)
    else
      var t := PendingTarget(d.log).value;
      if FinalOk(apps) then t else if apps == CustomError then Claimed(d.log, t) else Active(d)
  }

  lemma PendingRuns(keep: bool, log: Log, t: Target, booted: Hash)
    requires Proper(log)
    ensures Proper(Save(keep, log, t, Plain)) && Proper(Save(keep, log, t, Current))
    ensures CurrentTarget(Save(keep, log, t, Plain), booted) ==
            if t.hash == booted then Claimed(log, t) else CurrentTarget(log, booted)
    ensures t.hash == booted ==> CurrentTarget(Save(keep, log, t, Current), booted) == t
  {
    SaveKeepsProper(keep, log, t, Plain);
    SaveKeepsProper(keep, log, t, Current);
    CurrentAfterSave(keep, log, t, Plain, booted);
    if t.hash == booted {
      CurrentAfterSave(keep, log, t, Current, booted);
    }
  }

  lemma StartMeaning(keep: bool, d: Device, apps: Code)
    requires Proper(d.log)
    ensures Active(DaemonStart(keep, d, apps)) == StartRuns(d, apps)
  {
    if !Idle(d) {
      PendingRuns(keep, d.log, PendingTarget(d.log).value, d.trees.booted);
    }
  }

  /** The tree that an installation leaves to boot next. */
  function TreeLeft(trees: Trees, hash: Hash, env: InstallEnv): Hash {
    if Deploys(trees, hash, env.firmware, env.deployed) then hash else trees.next
  }

  /** The tree that an installation that failed, and the deployment of the old tree after it, leave to boot next. */
  function TreeLeftBack(trees: Trees, hash: Hash, env: PullEnv): Hash {
    var left := TreeLeft(trees, hash, env.first);
    if left == trees.booted || env.second.deployed then trees.booted else left
  }

  /** The tree that boots after a cut in the installation of the chosen target. */
  function CutTree(d: Device, env: CycleEnv): Hash
    requires Chosen(d, env).target.Some?
  {
    if env.up then TreeLeft(d.trees, Chosen(d, env).target.value.hash, env.pull.first) else d.trees.booted
  }

  /** The first installation fails, so that the round goes on to the rollback. */
  predicate Fails(trees: Trees, hash: Hash, env: InstallEnv) {
    || FailsHere(trees, hash, env)
    || (&& hash != trees.booted
        && (|| env.firmware.verdict == InstallFailed
            || (env.firmware.verdict != NeedCompletion && !env.deployed)
            || (env.create && env.apps == InstallFailed)))
  }

  /** The tree that boots after a failed installation of the chosen target and a cut in the rollback. */
  function RollbackTree(d: Device, env: CycleEnv): Hash
    requires Chosen(d, env).target.Some?
  {
    if env.up then TreeLeftBack(d.trees, Chosen(d, env).target.value.hash, env.pull) else d.trees.booted
  }

  /** What runs after a reboot between two rounds. */
  function RestartRuns(d: Device, up: bool, apps: Code): Target {
    if !Idle(d) && FinalOk(apps) then PendingTarget(d.log).value
    else if up then CurrentTarget(d.log, d.trees.next)
    else Active(d)
  }

  /** What runs after a cut: in the first installation, or in one that pulled no apps, what the log has about the tree
      that comes up; in the rollback the same, but the target that failed is in the log now; and if there was none, what
      the round would have led to. */
  function CutRuns(d: Device, env: CycleEnv, inRollback: bool): Target {
    if !Starts(d, env) then RestartRuns(d, env.up, env.apps)
    else
      var t := Chosen(d, env).target.value;
      if inRollback && Fails(d.trees, t.hash, env.pull.first) then
        var tree := RollbackTree(d, env);
        if tree == t.hash then Claimed(d.log, t) else CurrentTarget(d.log, tree)
      else if inRollback && Here(d.trees, t.hash, env.pull.first) then t
      else if inRollback && BootsNew(d, env) then if FinalOk(env.apps) then t else Claimed(d.log, t)
      else if inRollback && NeedsBoot(d.trees, t.hash, env.pull.first) && !Held(d.trees, t.hash, env.pull.first)
      then Active(d)
      else CurrentTarget(d.log, CutTree(d, env))
  }

  /** Between two events, what is pending is booted and boots next, and it runs unless the current row has its tree. */
  predicate Steady(d: Device) {
    && Proper(d.log)
    && (!Idle(d) ==>
          var t := PendingTarget(d.log).value;
          d.trees.booted == d.trees.next == t.hash && Active(d) == Claimed(d.log, t))
  }

  /** What is pending runs. */
  predicate PendingRunsNow(d: Device) {
    !Idle(d) ==> !OtherRow(d.log, PendingTarget(d.log).value)
  }

  lemma StartIsSteady(keep: bool, d: Device, apps: Code)
    requires Steady(d)
    ensures var after := DaemonStart(keep, d, apps);
            && Steady(after) && (Idle(after) || after.log == d.log)
            && Active(after) == if !Idle(d) && FinalOk(apps) then PendingTarget(d.log).value else Active(d)
  {
    StartMeaning(keep, d, apps);
    FinalizeKeepsProper(keep, d, apps);
    if !Idle(d) {
      PendingAfterSave(keep, d.log, PendingTarget(d.log).value, Current);
      PendingAfterSave(keep, d.log, PendingTarget(d.log).value, Plain);
    }
  }

  /** A reboot changes what runs only by booting a tree that was left deployed, or by completing what is pending. */
  lemma RestartIsSteady(keep: bool, d: Device, up: bool, confirmed: bool, apps: Code)
    requires Steady(d)
    ensures var after := DaemonStart(keep, Reboot(d, up, confirmed), apps);
            Steady(after) && (Idle(after) || after.log == d.log) && Active(after) == RestartRuns(d, up, apps)
  {
    assert Steady(Reboot(d, up, confirmed));
    StartIsSteady(keep, Reboot(d, up, confirmed), apps);
  }

  lemma FailsGuard(keep: bool, d: Device, t: Target, env: InstallEnv)
    requires Proper(d.log) && Idle(d) && env.ready.Verified?
    ensures Install(keep, d, t, All, env).result == Failed <==> Fails(d.trees, t.hash, env)
  {
    InstallGuards(keep, d, t, env);
  }

  /** The reboot after an installation that needs it. */
  lemma NewTreeIsSteady(keep: bool, d: Device, t: Target, d1: Device, env: CycleEnv)
    requires Proper(d.log) && d1.log == Save(keep, d.log, t, Pending)
    requires d1.trees.booted == d.trees.booted != t.hash == d1.trees.next
    ensures var after := DaemonStart(keep, Reboot(d1, env.up, env.confirmed), env.apps);
            && Active(after) == (if !env.up then Active(d) else if FinalOk(env.apps) then t else Claimed(d.log, t))
            && Steady(after)
            && (!(env.up && !FinalOk(env.apps) && OtherRow(d.log, t)) ==> PendingRunsNow(after))
  {
    var boot := Reboot(d1, env.up, env.confirmed);
    BootMeaningFrom(keep, d, d1, t, env.up, env.confirmed, env.apps);
    SaveKeepsProper(keep, d.log, t, Pending);
    PendingAfterSave(keep, d.log, t, Pending);
    CurrentRowAfterSave(keep, d.log, t, Pending);
    FinalizeKeepsProper(keep, boot, env.apps);
    PendingAfterSave(keep, boot.log, t, Current);
    PendingAfterSave(keep, boot.log, t, Plain);
  }

  lemma CutFirst(keep: bool, d: Device, env: CycleEnv)
    requires Steady(d) && Starts(d, env)
    ensures var after := AfterEvent(keep, d, CutRound(env, false));
            Steady(after) && Idle(after) && Active(after) == CurrentTarget(d.log, CutTree(d, env))
  {
    var cut := CutIn(keep, d, env, false);
    assert cut.log == d.log;
    RestartIsSteady(keep, cut, env.up, env.confirmed, env.apps);
  }

  /** The device after a cut in the rollback. */
  lemma CutSecondDevice(keep: bool, d: Device, t: Target, env: PullEnv)
    requires Proper(d.log) && Idle(d) && env.proceeds && env.first.ready.Verified? && Fails(d.trees, t.hash, env.first)
    ensures var cut := CutDevice(keep, d, t, All, env, true);
            && cut.log == Save(keep, d.log, t, Plain) && Idle(cut)
            && cut.trees.booted == d.trees.booted && cut.trees.next == TreeLeftBack(d.trees, t.hash, env)
  {
    FailsGuard(keep, d, t, env.first);
    FailedStaysIdle(keep, d, t, All, env.first);
  }

  /** A cut in the rollback. */
  lemma CutSecond(keep: bool, d: Device, env: CycleEnv)
    requires Steady(d) && Starts(d, env) && Fails(d.trees, Chosen(d, env).target.value.hash, env.pull.first)
    ensures var after := AfterEvent(keep, d, CutRound(env, true));
            Steady(after) && Idle(after) && Active(after) == CutRuns(d, env, true)
  {
    var t, cut := Chosen(d, env).target.value, CutIn(keep, d, env, true);
    CutSecondDevice(keep, d, t, env.pull);
    PendingRuns(keep, d.log, t, RollbackTree(d, env));
    RestartIsSteady(keep, cut, env.up, env.confirmed, env.apps);
  }

  /** Power is lost after the installation was recorded. */
  lemma CutAfter(keep: bool, d: Device, env: CycleEnv)
    requires Steady(d) && Starts(d, env) && !Fails(d.trees, Chosen(d, env).target.value.hash, env.pull.first)
    ensures var after := AfterEvent(keep, d, CutRound(env, true));
            Steady(after) && (!StartFails(d, env) ==> PendingRunsNow(after)) && Active(after) == CutRuns(d, env, true)
  {
    var t, cut := Chosen(d, env).target.value, CutIn(keep, d, env, true);
    FailsGuard(keep, d, t, env.pull.first);
    InstallGuards(keep, d, t, env.pull.first);
    PendingMeaning(keep, d, t, All, env.pull.first);
    if Here(d.trees, t.hash, env.pull.first) {
      DoneMeaning(keep, d, t, All, env.pull.first);
      SaveKeepsProper(keep, d.log, t, Current);
      RestartIsSteady(keep, cut, env.up, env.confirmed, env.apps);
    } else {
      OtherMeaning(keep, d, t, All, env.pull.first);
      if NeedsBoot(d.trees, t.hash, env.pull.first) && !Held(d.trees, t.hash, env.pull.first) {
        NewTreeIsSteady(keep, d, t, cut, env);
      } else {
        RestartIsSteady(keep, cut, env.up, env.confirmed, env.apps);
      }
    }
  }

  /** Exactly what runs after a power cut in a round, over the device and the inputs. */
  lemma CutMeaning(keep: bool, d: Device, env: CycleEnv, inRollback: bool)
    requires Steady(d)
    ensures var after := AfterEvent(keep, d, CutRound(env, inRollback));
            && Steady(after) && Active(after) == CutRuns(d, env, inRollback)
            && (PendingRunsNow(d) && !StartFails(d, env) ==> PendingRunsNow(after))
  {
    if !Starts(d, env) {
      RestartIsSteady(keep, d, env.up, env.confirmed, env.apps);
    } else if !inRollback {
      CutFirst(keep, d, env);
    } else if Fails(d.trees, Chosen(d, env).target.value.hash, env.pull.first) {
      CutSecond(keep, d, env);
    } else {
      CutAfter(keep, d, env);
    }
  }

  /** Exactly when an event lowers the running version, over the device and the inputs. */
  predicate Lowers(d: Device, event: Event) {
    match event
    case Round(env) => CycleLowers(d, env)
    case CutRound(env, inRollback) => CutRuns(d, env, inRollback).version < Active(d).version
    case Restart(up, _, apps) =>
      || (up && PendingTree(d.trees).Some? && CurrentTarget(d.log, d.trees.next).version < Active(d).version)
      || StartLowers(d, apps)
    case Rerun(apps) => StartLowers(d, apps)
  }

  /** The start of the daemon completes what is pending, while a current row of higher version has its tree. */
  predicate StartLowers(d: Device, apps: Code) {
    && !Idle(d) && FinalOk(apps) && OtherRow(d.log, PendingTarget(d.log).value)
    && PendingTarget(d.log).value.version < Active(d).version
  }

  lemma EventLowers(keep: bool, d: Device, event: Event)
    requires Steady(d)
    ensures Active(AfterEvent(keep, d, event)).version < Active(d).version <==> Lowers(d, event)
  {
    match event
    case Round(env) => VersionDropsIff(keep, d, env);
    case CutRound(env, inRollback) => CutMeaning(keep, d, env, inRollback);
    case Restart(up, confirmed, apps) => RestartIsSteady(keep, d, up, confirmed, apps);
    case Rerun(apps) => StartIsSteady(keep, d, apps);
  }

  /** An installation that fails leaves nothing pending, and neither does its rollback. */
  lemma FailedRoundIsIdle(keep: bool, d: Device, t: Target, env: PullEnv)
    requires Proper(d.log) && Idle(d) && Install(keep, d, t, All, env.first).result == Failed
    ensures var after := PullAndInstall(keep, d, t, All, env).device;
            Proper(after.log) && Idle(after)
    ensures PullAndInstall(keep, d, t, All, env).result !in {NeedsCompletion, BootFwNeedsCompletion}
  {
    var first := Install(keep, d, t, All, env.first).device;
    FailedStaysIdle(keep, d, t, All, env.first);
    SaveKeepsProper(keep, d.log, t, Plain);
    CurrentTargetIsBooted(d.log, d.trees.booted);
    InstallKeepsProper(keep, first, Active(d), All, env.second);
    PendingMeaning(keep, first, Active(d), All, env.second);
    if env.second.ready.Verified? {
      InstallGuards(keep, first, Active(d), env.second);
    }
  }

  lemma StartedRoundIsSteady(keep: bool, d: Device, t: Target, env: CycleEnv)
    requires Proper(d.log) && Idle(d) && env.pull.proceeds && env.pull.first.ready.Verified?
    ensures var r := PullAndInstall(keep, d, t, All, env.pull);
            var after := if r.result in {NeedsCompletion, BootFwNeedsCompletion}
                         then DaemonStart(keep, Reboot(r.device, env.up, env.confirmed), env.apps) else r.device;
            && Steady(after)
            && (Idle(after) || PendingRunsNow(after)
                || (r.result == NeedsCompletion && env.up && !FinalOk(env.apps) && OtherRow(d.log, t)))
  {
    var r := Install(keep, d, t, All, env.pull.first);
    InstallGuards(keep, d, t, env.pull.first);
    InstallKeepsProper(keep, d, t, All, env.pull.first);
    PendingMeaning(keep, d, t, All, env.pull.first);
    if r.result == Failed {
      FailedRoundIsIdle(keep, d, t, env.pull);
    } else if r.result == NeedsCompletion {
      OtherMeaning(keep, d, t, All, env.pull.first);
      NewTreeIsSteady(keep, d, t, r.device, env);
    }
  }

  lemma NoStartNoChange(keep: bool, d: Device, env: CycleEnv)
    requires !Starts(d, env)
    ensures Cycle(keep, d, env) == d
  {
  }

  lemma RoundIsSteady(keep: bool, d: Device, env: CycleEnv)
    requires Steady(d)
    ensures Steady(Cycle(keep, d, env))
    ensures PendingRunsNow(d) && !StartFails(d, env) ==> PendingRunsNow(Cycle(keep, d, env))
  {
    if Starts(d, env) {
      StartedRoundIsSteady(keep, d, Chosen(d, env).target.value, env);
      InstallGuards(keep, d, Chosen(d, env).target.value, env.pull.first);
    } else {
      NoStartNoChange(keep, d, env);
    }
  }

  lemma EventIsSteady(keep: bool, d: Device, event: Event)
    requires Steady(d)
    ensures Steady(AfterEvent(keep, d, event))
    ensures PendingRunsNow(d) && !MayDrop(d, event) ==> PendingRunsNow(AfterEvent(keep, d, event))
  {
    match event
    case Round(env) => RoundIsSteady(keep, d, env);
    case CutRound(env, inRollback) => CutMeaning(keep, d, env, inRollback);
    case Restart(up, confirmed, apps) => RestartIsSteady(keep, d, up, confirmed, apps);
    case Rerun(apps) => StartIsSteady(keep, d, apps);
  }

  function DaemonRun(keep: bool, d: Device, events: seq<Event>): Device {
    if events == [] then d else AfterEvent(keep, DaemonRun(keep, d, events[..|events| - 1]), events[|events| - 1])
  }

  /** Between any two events of any run, what is pending is booted and boots next. */
  lemma {:induction false} RunIsSteady(keep: bool, d: Device, events: seq<Event>)
    requires Steady(d)
    ensures Steady(DaemonRun(keep, d, events))
    decreases |events|
  {
    if events != [] {
      RunIsSteady(keep, d, events[..|events| - 1]);
      EventIsSteady(keep, DaemonRun(keep, d, events[..|events| - 1]), events[|events| - 1]);
    }
  }

  /** A selected rollback, a sync of a target of version -1, or a new tree whose apps do not start while the current row
      has it. */
  predicate RoundMayDrop(d: Device, env: CycleEnv) {
    || Chosen(d, env).status == UpdateRollback
    || (Chosen(d, env).status == UpdateSyncApps && Active(d).version == -1)
    || StartFails(d, env)
  }

  /** The tree that comes up after a power cut. */
  function TreeAfterCut(d: Device, env: CycleEnv, inRollback: bool): Hash {
    if !env.up then d.trees.booted
    else if !Starts(d, env) then d.trees.next
    else if inRollback && Fails(d.trees, Chosen(d, env).target.value.hash, env.pull.first) then RollbackTree(d, env)
    else CutTree(d, env)
  }

  /** What accounts for a drop: one of these, or a tree that comes up without a record of its installation: one that was
      left deployed by an earlier failure, or by a cut. */
  predicate MayDrop(d: Device, event: Event) {
    match event
    case Round(env) => RoundMayDrop(d, env) || BootsLeftover(d, env)
    case CutRound(env, inRollback) =>
      || RoundMayDrop(d, env)
      || (TreeAfterCut(d, env, inRollback) != d.trees.booted && !(inRollback && BootsNew(d, env)))
    case Restart(up, _, _) => up && PendingTree(d.trees).Some?
    case Rerun(_) => false
  }

  ghost predicate SortedTargets(event: Event) {
    event.Round? || event.CutRound? ==> GoodTargets(event.env)
  }

  /** No event of the run accounts for a drop, and every list of targets is sorted. */
  ghost predicate NoDrop(keep: bool, d: Device, events: seq<Event>) {
    events != [] ==>
      var n := |events| - 1;
      && NoDrop(keep, d, events[..n]) && SortedTargets(events[n])
      && !MayDrop(DaemonRun(keep, d, events[..n]), events[n])
  }

  /** A cut after which the booted tree, or the new one with its record, comes up does not lower the version. */
  lemma CutKeepsVersion(d: Device, env: CycleEnv, inRollback: bool)
    requires Steady(d) && PendingRunsNow(d) && GoodTargets(env) && !MayDrop(d, CutRound(env, inRollback))
    ensures CutRuns(d, env, inRollback).version >= Active(d).version
  {
    ChosenVersion(d, env);
  }

  lemma EventKeepsVersion(keep: bool, d: Device, event: Event)
    requires Steady(d) && PendingRunsNow(d) && SortedTargets(event) && !MayDrop(d, event)
    ensures Active(AfterEvent(keep, d, event)).version >= Active(d).version
  {
    EventLowers(keep, d, event);
    match event
    case Round(env) => VersionDrops(d, env);
    case CutRound(env, inRollback) => CutKeepsVersion(d, env, inRollback);
    case _ =>
  }

  /** In every run of the daemon, with power cuts and restarts, whose version ends up lower, some event accounts for it. */
  lemma {:induction false} VersionMonotonicity(keep: bool, d: Device, events: seq<Event>)
    requires Steady(d) && PendingRunsNow(d) && NoDrop(keep, d, events)
    ensures Steady(DaemonRun(keep, d, events)) && PendingRunsNow(DaemonRun(keep, d, events))
    ensures Active(DaemonRun(keep, d, events)).version >= Active(d).version
    decreases |events|
  {
    if events != [] {
      var n := |events| - 1;
      VersionMonotonicity(keep, d, events[..n]);
      EventKeepsVersion(keep, DaemonRun(keep, d, events[..n]), events[n]);
      EventIsSteady(keep, DaemonRun(keep, d, events[..n]), events[n]);
    }
  }

  // ---------------------------------------------------------------------------
  // The drops that are neither a rollback nor a fallback do happen
  // ---------------------------------------------------------------------------

  /** The only target on offer is selected if it is new to the log and not below the running version. */
  lemma OnlyTargetChosen(d: Device, t: Target, env: CycleEnv)
    requires env.targets == [t] && env.hwid == t.hwid && t.name !in {UNKNOWN, Active(d).name}
    requires t.version >= Active(d).version && forall row | row in d.log :: row.target.name != t.name
    ensures Chosen(d, env) == Selected(UpdateNewVersion, Some(t))
  {
    assert LatestFor(env.targets, env.hwid) == Some(t);
  }

  /** The device after a new tree came up and its apps did not start. */
  lemma AppsFailDevice(keep: bool, d: Device, env: CycleEnv, t: Target)
    requires Proper(d.log) && Starts(d, env) && Chosen(d, env).target.value == t
    requires NeedsBoot(d.trees, t.hash, env.pull.first) && !Held(d.trees, t.hash, env.pull.first)
    requires env.up && env.apps == CustomError
    ensures var after := Cycle(keep, d, env);
            && after.log == Save(keep, Save(keep, d.log, t, Pending), t, Plain)
            && after.trees.booted == after.trees.next == t.hash
  {
    InstallGuards(keep, d, t, env.pull.first);
    PulledPending(keep, d, t, env.pull);
    PendingAfterSave(keep, d.log, t, Pending);
  }

  /** What the log then says, and which names it has. */
  lemma AppsFailLog(keep: bool, log: Log, t: Target, name: string)
    requires Proper(log) && CurrentRow(log).Some? && !Same(CurrentRow(log).value, t)
    requires t.name != name && forall row | row in log :: row.target.name != name
    ensures var after := Save(keep, Save(keep, log, t, Pending), t, Plain);
            && Proper(after) && PendingTarget(after).None? && CurrentRow(after) == CurrentRow(log)
            && forall row | row in after :: row.target.name != name
  {
    var first := Save(keep, log, t, Pending);
    SaveKeepsProper(keep, log, t, Pending);
    SaveKeepsProper(keep, first, t, Plain);
    PendingAfterSave(keep, log, t, Pending);
    PendingAfterSave(keep, first, t, Plain);
    CurrentRowAfterSave(keep, log, t, Pending);
    CurrentRowAfterSave(keep, first, t, Plain);
    OthersMembers(log, t, Pending);
    OthersMembers(first, t, Plain);
  }

  function ExampleTarget(name: string, hash: Hash, version: int): Target {
    Target(name, hash, version, "hw", map[])
  }

  /** Version 1 runs on tree H. */
  function ExampleDevice(): Device {
    Device(Trees("H", "H", false), false, [Row(ExampleTarget("a", "H", 1), true, false, true)])
  }

  function ExampleInstall(verdict: Code, create: bool, apps: Code): InstallEnv {
    InstallEnv(Verified, Firmware(verdict, false), true, create, apps)
  }

  /** A round with one target on offer whose boot comes up. */
  function ExampleRound(t: Target, install: InstallEnv, apps: Code): CycleEnv {
    CycleEnv([t], "hw", false, PullEnv(true, install, false, install), true, false, apps)
  }

  lemma ExampleFacts(d: Device, hash: Hash)
    requires d == ExampleDevice() && hash != "H"
    ensures Inv(d) && Idle(d) && Active(d) == CurrentRow(d.log).value == ExampleTarget("a", "H", 1)
    ensures CurrentTarget(d.log, hash) == UnknownTarget(hash)
  {
    assert d.log[..0] == [];
    assert Last(HasHash(hash), d.log) == None;
  }

  /** A round in which a new target on another tree comes up without its apps. */
  lemma AppsFailRound(keep: bool, d: Device, t: Target, env: CycleEnv, name: string)
    requires Proper(d.log) && Idle(d) && CurrentRow(d.log).Some? && CurrentRow(d.log).value.hash == d.trees.booted
    requires t.hwid == "hw" && t.hash != d.trees.booted && t.name !in {UNKNOWN, Active(d).name, name}
    requires t.version >= Active(d).version
    requires forall row | row in d.log :: row.target.name != t.name && row.target.name != name
    requires env == ExampleRound(t, ExampleInstall(Ok, false, Ok), CustomError)
    ensures var after := Cycle(keep, d, env);
            && Proper(after.log) && Idle(after) && CurrentRow(after.log) == CurrentRow(d.log) && Active(after) == t
            && after.trees.booted == after.trees.next == t.hash
            && forall row | row in after.log :: row.target.name != name
  {
    OnlyTargetChosen(d, t, env);
    AppsFailDevice(keep, d, env, t);
    AppsFailLog(keep, d.log, t, name);
    CycleRuns(keep, d, env);
  }

  /** A round in which a new target on the tree of another current row comes up without its apps. */
  lemma AppsFailAgain(keep: bool, d: Device, t: Target, env: CycleEnv)
    requires Proper(d.log) && Idle(d) && OtherRow(d.log, t)
    requires t.hwid == "hw" && t.hash != d.trees.booted && t.name !in {UNKNOWN, Active(d).name}
    requires t.version >= Active(d).version && forall row | row in d.log :: row.target.name != t.name
    requires env == ExampleRound(t, ExampleInstall(Ok, false, Ok), CustomError)
    ensures Chosen(d, env).status == UpdateNewVersion && Active(Cycle(keep, d, env)) == CurrentRow(d.log).value
  {
    OnlyTargetChosen(d, t, env);
    CycleRuns(keep, d, env);
  }

  /** Version 2 on tree B comes up without its apps, then version 3 on tree H does: the running version is 1, 2 and 1. */
  lemma StartFailsExample(keep: bool, d: Device, b: Target, c: Target, first: CycleEnv, second: CycleEnv)
    requires d == ExampleDevice() && b == ExampleTarget("b", "B", 2) && c == ExampleTarget("c", "H", 3)
    requires first == ExampleRound(b, ExampleInstall(Ok, false, Ok), CustomError)
    requires second == ExampleRound(c, ExampleInstall(Ok, false, Ok), CustomError)
    ensures var d1 := Cycle(keep, d, first);
            && Active(d).version == 1 && Active(d1).version == 2 && Active(Cycle(keep, d1, second)).version == 1
            && Chosen(d1, second).status == UpdateNewVersion
  {
    ExampleFacts(d, "B");
    AppsFailRound(keep, d, b, first, "c");
    AppsFailAgain(keep, Cycle(keep, d, first), c, second);
  }

  /** A round that deploys a tree and then cannot pull the apps. */
  lemma LeftoverDevice(keep: bool, d: Device, env: CycleEnv, b: Target)
    requires d == ExampleDevice() && b == ExampleTarget("b", "B", 2)
    requires env == ExampleRound(b, ExampleInstall(Ok, true, DownloadFailed), Ok)
    ensures Cycle(keep, d, env) == d.(trees := Trees("H", "B", false))
  {
    ExampleFacts(d, "B");
    OnlyTargetChosen(d, b, env);
    assert EffectOf(d.trees, "B", All, env.pull.first) == Effect(DownloadFailed, Trees("H", "B", false), None);
  }

  /** The tree of version 2 is deployed, but the pull of its apps fails; then the firmware asks for a reboot, and the
      device comes up in that tree, about which the log has nothing. */
  lemma LeftoverExample(keep: bool, d: Device, b: Target, c: Target, first: CycleEnv, second: CycleEnv)
    requires d == ExampleDevice() && b == ExampleTarget("b", "B", 2) && c == ExampleTarget("c", "C", 3)
    requires first == ExampleRound(b, ExampleInstall(Ok, true, DownloadFailed), Ok)
    requires second == ExampleRound(c, ExampleInstall(NeedCompletion, false, Ok), Ok)
    ensures var d1 := Cycle(keep, d, first);
            && Active(d).version == Active(d1).version == 1 && Active(Cycle(keep, d1, second)).version == -1
            && Chosen(d1, second).status == UpdateNewVersion
  {
    LeftoverDevice(keep, d, first, b);
    ExampleFacts(d, "B");
    LeftoverBoots(keep, d.(trees := Trees("H", "B", false)), c, second);
  }

  lemma LeftoverBoots(keep: bool, d: Device, c: Target, env: CycleEnv)
    requires Proper(d.log) && Idle(d) && d.trees == Trees("H", "B", false) && Active(d).version == 1
    requires CurrentTarget(d.log, "B") == UnknownTarget("B")
    requires c == ExampleTarget("c", "C", 3) && env == ExampleRound(c, ExampleInstall(NeedCompletion, false, Ok), Ok)
    requires Active(d).name != "c" && forall row | row in d.log :: row.target.name != "c"
    ensures Chosen(d, env).status == UpdateNewVersion && Active(Cycle(keep, d, env)).version == -1
  {
    OnlyTargetChosen(d, c, env);
    HeldRuns(keep, d, env);
  }

  /** Power is lost after the tree of version 2 was deployed and before that is recorded. */
  lemma CutExample(keep: bool, d: Device, env: CycleEnv)
    requires d == ExampleDevice()
    requires env == ExampleRound(ExampleTarget("b", "B", 2), ExampleInstall(Ok, false, Ok), Ok)
    ensures Active(d).version == 1 && Active(AfterEvent(keep, d, CutRound(env, false))).version == -1
  {
    ExampleFacts(d, "B");
    OnlyTargetChosen(d, ExampleTarget("b", "B", 2), env);
    CutMeaning(keep, d, env, false);
  }
}
