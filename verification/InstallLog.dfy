/**
 The installation log and the questions the client asks of it (src/helpers.cc, src/liteclient.cc).

 The storage itself is not part of this model.  Its contract: a saved target is the last row of the log, `Current`
 makes it the only current row, leaves nothing pending and records that it was installed, `Pending` makes it the only
 pending row, and `Plain` turns both flags off and never records an installation.  Whether a `Plain` save forgets an
 earlier installation is left open (`keep`).
 */
module InstallLog {
  import opened Basics
  import opened AppPlan

  datatype Target = Target(name: string, hash: Hash, version: int, hwid: string, apps: TargetApps)

  const UNKNOWN: string := "unknown"

  function UnknownTarget(hash: Hash): Target {
    Target(UNKNOWN, hash, -1, "", map[])
  }

  predicate Same(a: Target, b: Target) {
    a.name == b.name && a.hash == b.hash
  }

  datatype Row = Row(target: Target, current: bool, pending: bool, installed: bool)
  type Log = seq<Row>
  datatype Mode = Current | Pending | Plain

  // ---------------------------------------------------------------------------
  // Queries
  // ---------------------------------------------------------------------------

  datatype Query = IsCurrent | IsPending | HasHash(hash: Hash) | IsInstalled(allowCurrent: bool)

  predicate Matches(q: Query, row: Row) {
    match q
    case IsCurrent => row.current
    case IsPending => row.pending
    case HasHash(hash) => row.target.hash == hash
    case IsInstalled(allowCurrent) => row.installed && (allowCurrent || !row.current)
  }

  /** The last matching row. */
  function Last(q: Query, log: Log): Option<Row> {
    if log == [] then None
    else if Matches(q, log[|log| - 1]) then Some(log[|log| - 1])
    else Last(q, log[..|log| - 1])
  }

  lemma {:induction false} LastMatches(q: Query, log: Log)
    ensures Last(q, log).Some? <==> exists row :: row in log && Matches(q, row)
    ensures Last(q, log).Some? ==> Last(q, log).value in log && Matches(q, Last(q, log).value)
  {
    if log != [] {
      var front, last := log[..|log| - 1], log[|log| - 1];
      assert log == front + [last];
      LastMatches(q, front);
    }
  }

  function PendingTarget(log: Log): Option<Target> {
    var row := Last(IsPending, log);
    if row.Some? then Some(row.value.target) else None
  }

  /** The target the device runs: the current row if it is of the booted tree, else the last row of that tree. */
  function CurrentTarget(log: Log, booted: Hash): Target {
    var row := Last(IsCurrent, log);
    if row.Some? && row.value.target.hash == booted then row.value.target
    else
      var other := Last(HasHash(booted), log);
      if other.Some? then other.value.target else UnknownTarget(booted)
  }

  /** The last target that was installed. */
  function RollbackTarget(log: Log, allowCurrent: bool): Target {
    var row := Last(IsInstalled(allowCurrent), log);
    if row.Some? then row.value.target else UnknownTarget("")
  }

  lemma CurrentTargetIsBooted(log: Log, booted: Hash)
    ensures CurrentTarget(log, booted).hash == booted
  {
    LastMatches(HasHash(booted), log);
  }

  predicate WasInstalled(log: Log, t: Target) {
    exists row :: row in log && Same(row.target, t) && row.installed
  }

  predicate NameInstalled(log: Log, name: string) {
    exists row :: row in log && row.target.name == name && row.installed
  }

  /** Known to the log, but never installed. */
  predicate Failing(log: Log, name: string) {
    && (exists row :: row in log && row.target.name == name)
    && !NameInstalled(log, name)
  }

  // ---------------------------------------------------------------------------
  // Saving
  // ---------------------------------------------------------------------------

  /** A row of another target after a save. */
  function Cleared(row: Row, mode: Mode): Row {
    match mode
    case Current => row.(current := false, pending := false)
    case Pending => row.(pending := false)
    case Plain => row
  }

  function Others(log: Log, t: Target, mode: Mode): Log {
    if log == [] then []
    else
      var front, last := log[..|log| - 1], log[|log| - 1];
      Others(front, t, mode) + if Same(last.target, t) then [] else [Cleared(last, mode)]
  }

  function SavedRow(keep: bool, log: Log, t: Target, mode: Mode): Row {
    Row(t, mode.Current?, mode.Pending?, mode.Current? || (WasInstalled(log, t) && (keep || !mode.Plain?)))
  }

  function Save(keep: bool, log: Log, t: Target, mode: Mode): Log {
    Others(log, t, mode) + [SavedRow(keep, log, t, mode)]
  }

  lemma {:induction false} OthersMembers(log: Log, t: Target, mode: Mode)
    ensures forall row | row in log && !Same(row.target, t) :: Cleared(row, mode) in Others(log, t, mode)
    ensures forall row | row in Others(log, t, mode) ::
              !Same(row.target, t) && exists old_ :: old_ in log && row == Cleared(old_, mode)
  {
    if log != [] {
      var front, last := log[..|log| - 1], log[|log| - 1];
      assert log == front + [last];
      OthersMembers(front, t, mode);
      forall row | row in Others(log, t, mode)
        ensures !Same(row.target, t) && exists old_ :: old_ in log && row == Cleared(old_, mode)
      {
        if row in Others(front, t, mode) {
          var old_ :| old_ in front && row == Cleared(old_, mode);
          assert old_ in log;
        } else {
          assert last in log;
        }
      }
    }
  }

  /** A query that clearing does not affect finds the same row among the others. */
  lemma {:induction false} LastOfOthers(q: Query, log: Log, t: Target, mode: Mode)
    requires forall row: Row :: Matches(q, Cleared(row, mode)) <==> Matches(q, row)
    ensures Last(q, log).Some? && !Same(Last(q, log).value.target, t) ==>
              Last(q, Others(log, t, mode)) == Some(Cleared(Last(q, log).value, mode))
    ensures Last(q, log).None? ==> Last(q, Others(log, t, mode)).None?
  {
    if log != [] {
      var front, last := log[..|log| - 1], log[|log| - 1];
      var rest := Others(front, t, mode);
      LastOfOthers(q, front, t, mode);
      if Same(last.target, t) {
        assert Others(log, t, mode) == rest;
      } else {
        assert Others(log, t, mode) == rest + [Cleared(last, mode)];
        LastOfAppended(q, rest, Cleared(last, mode));
      }
    }
  }

  lemma LastOfAppended(q: Query, log: Log, row: Row)
    ensures Last(q, log + [row]) == if Matches(q, row) then Some(row) else Last(q, log)
  {
    assert (log + [row])[..|log|] == log;
  }

  lemma LastOfSaved(q: Query, keep: bool, log: Log, t: Target, mode: Mode)
    ensures Last(q, Save(keep, log, t, mode)) ==
            if Matches(q, SavedRow(keep, log, t, mode)) then Some(SavedRow(keep, log, t, mode))
            else Last(q, Others(log, t, mode))
  {
    var saved := Save(keep, log, t, mode);
    assert saved[..|saved| - 1] == Others(log, t, mode);
  }

  // ---------------------------------------------------------------------------
  // What a save does to the answers
  // ---------------------------------------------------------------------------

  /** Every matching row is of the given target. */
  predicate OnlyOf(q: Query, log: Log, t: Option<Target>) {
    log != [] ==>
      && OnlyOf(q, log[..|log| - 1], t)
      && (Matches(q, log[|log| - 1]) ==> t.Some? && Same(log[|log| - 1].target, t.value))
  }

  /** All pending rows are of one target, and so are all current rows. */
  predicate Proper(log: Log) {
    OnlyOf(IsPending, log, PendingTarget(log)) && OnlyOf(IsCurrent, log, CurrentRow(log))
  }

  lemma {:induction false} OnlyOfMembers(q: Query, log: Log, t: Option<Target>)
    ensures OnlyOf(q, log, t) <==> forall row | row in log && Matches(q, row) :: t.Some? && Same(row.target, t.value)
  {
    if log != [] {
      assert log == log[..|log| - 1] + [log[|log| - 1]];
      OnlyOfMembers(q, log[..|log| - 1], t);
    }
  }

  lemma SaveKeepsProper(keep: bool, log: Log, t: Target, mode: Mode)
    requires Proper(log)
    ensures Proper(Save(keep, log, t, mode))
  {
    var saved := Save(keep, log, t, mode);
    PendingAfterSave(keep, log, t, mode);
    CurrentRowAfterSave(keep, log, t, mode);
    OthersMembers(log, t, mode);
    OnlyOfMembers(IsPending, log, PendingTarget(log));
    OnlyOfMembers(IsCurrent, log, CurrentRow(log));
    OnlyOfMembers(IsPending, saved, PendingTarget(saved));
    OnlyOfMembers(IsCurrent, saved, CurrentRow(saved));
  }

  /** `Pending` makes the target pending, `Current` leaves none, `Plain` takes back the target and no other. */
  lemma PendingAfterSave(keep: bool, log: Log, t: Target, mode: Mode)
    requires Proper(log)
    ensures PendingTarget(Save(keep, log, t, mode)) ==
            match mode
            case Current => None
            case Pending => Some(t)
            case Plain =>
              if PendingTarget(log).Some? && Same(PendingTarget(log).value, t) then None else PendingTarget(log)
  {
    OnlyOfMembers(IsPending, log, PendingTarget(log));
    OthersMembers(log, t, mode);
    LastOfSaved(IsPending, keep, log, t, mode);
    LastMatches(IsPending, Others(log, t, mode));
    LastMatches(IsPending, log);
    if mode.Plain? {
      LastOfOthers(IsPending, log, t, mode);
    }
  }

  /** The target of the current row. */
  function CurrentRow(log: Log): Option<Target> {
    var row := Last(IsCurrent, log);
    if row.Some? then Some(row.value.target) else None
  }

  lemma CurrentRowAfterSave(keep: bool, log: Log, t: Target, mode: Mode)
    requires Proper(log)
    ensures CurrentRow(Save(keep, log, t, mode)) ==
            if mode.Current? then Some(t)
            else if CurrentRow(log).Some? && Same(CurrentRow(log).value, t) then None else CurrentRow(log)
  {
    OnlyOfMembers(IsCurrent, log, CurrentRow(log));
    OthersMembers(log, t, mode);
    LastOfSaved(IsCurrent, keep, log, t, mode);
    LastMatches(IsCurrent, Others(log, t, mode));
    LastMatches(IsCurrent, log);
    if !mode.Current? {
      LastOfOthers(IsCurrent, log, t, mode);
    }
  }

  lemma HashAfterSave(keep: bool, log: Log, t: Target, mode: Mode, hash: Hash)
    requires t.hash != hash
    ensures Last(HasHash(hash), log).None? ==> Last(HasHash(hash), Save(keep, log, t, mode)).None?
    ensures Last(HasHash(hash), log).Some? ==>
              && Last(HasHash(hash), Save(keep, log, t, mode)).Some?
              && Last(HasHash(hash), Save(keep, log, t, mode)).value.target == Last(HasHash(hash), log).value.target
  {
    LastOfSaved(HasHash(hash), keep, log, t, mode);
    LastOfOthers(HasHash(hash), log, t, mode);
    LastMatches(HasHash(hash), log);
  }

  /** Whom a save makes the running target: one of another tree changes nothing, a `Current` one of the booted tree
      is it, and any other one of the booted tree is it unless a different current row has that tree. */
  lemma CurrentAfterSave(keep: bool, log: Log, t: Target, mode: Mode, booted: Hash)
    requires Proper(log)
    requires mode.Current? ==> t.hash == booted
    ensures CurrentTarget(Save(keep, log, t, mode), booted) ==
            if t.hash != booted then CurrentTarget(log, booted)
            else if !mode.Current? && CurrentRow(log).Some? && CurrentRow(log).value.hash == booted
                    && !Same(CurrentRow(log).value, t) then CurrentRow(log).value
            else t
  {
    CurrentRowAfterSave(keep, log, t, mode);
    if t.hash != booted {
      HashAfterSave(keep, log, t, mode, booted);
    } else {
      LastOfSaved(HasHash(booted), keep, log, t, mode);
    }
  }

  /** The log after a save, if there is one. */
  function Record(keep: bool, log: Log, t: Target, save: Option<Mode>): Log {
    if save.Some? then Save(keep, log, t, save.value) else log
  }

  lemma RecordKeepsProper(keep: bool, log: Log, t: Target, save: Option<Mode>)
    requires Proper(log)
    ensures Proper(Record(keep, log, t, save))
  {
    if save.Some? {
      SaveKeepsProper(keep, log, t, save.value);
    }
  }

  lemma PendingAfterRecord(keep: bool, log: Log, t: Target, save: Option<Mode>)
    requires Proper(log)
    ensures PendingTarget(Record(keep, log, t, save)) ==
            if save == Some(Current) then None
            else if save == Some(Pending) then Some(t)
            else if save == Some(Plain) && PendingTarget(log).Some? && Same(PendingTarget(log).value, t) then None
            else PendingTarget(log)
  {
    if save.Some? {
      PendingAfterSave(keep, log, t, save.value);
    }
  }

  lemma FailingAfterRecord(keep: bool, log: Log, t: Target, save: Option<Mode>, name: string)
    requires Failing(log, name) && !(save == Some(Current) && t.name == name)
    ensures Failing(Record(keep, log, t, save), name)
  {
    if save.Some? {
      FailingAfterSave(keep, log, t, save.value, name);
    }
  }

  /** A target that was never installed stays so until it is saved as current. */
  lemma FailingAfterSave(keep: bool, log: Log, t: Target, mode: Mode, name: string)
    requires Failing(log, name) && !(mode.Current? && t.name == name)
    ensures Failing(Save(keep, log, t, mode), name)
  {
    OthersMembers(log, t, mode);
    var saved := Save(keep, log, t, mode);
    var row :| row in log && row.target.name == name;
    if Same(row.target, t) {
      assert SavedRow(keep, log, t, mode) in saved;
    } else {
      assert Cleared(row, mode) in saved;
    }
  }

  /** A `Plain` save records the target as failing, unless a target of that name was installed before. */
  lemma PlainSaveFails(keep: bool, log: Log, t: Target)
    ensures Failing(Save(keep, log, t, Plain), t.name) <==>
            forall row | row in log && row.target.name == t.name && row.installed :: !keep && Same(row.target, t)
  {
    OthersMembers(log, t, Plain);
    var saved, row := Save(keep, log, t, Plain), SavedRow(keep, log, t, Plain);
    assert row in saved;
    if r :| r in log && r.target.name == t.name && r.installed && (keep || !Same(r.target, t)) {
      if Same(r.target, t) {
        assert row.installed;
      } else {
        assert Cleared(r, Plain) in saved;
      }
    }
  }

  // ---------------------------------------------------------------------------
  // get_known_but_not_installed_versions, known_local_target, isRollback
  // ---------------------------------------------------------------------------

  function Targets(log: Log, onlyInstalled: bool): seq<Target> {
    if log == [] then []
    else
      var front, last := log[..|log| - 1], log[|log| - 1];
      Targets(front, onlyInstalled) + if onlyInstalled && !last.installed then [] else [last.target]
  }

  lemma {:induction false} TargetsMembers(log: Log, onlyInstalled: bool)
    ensures forall row | row in log && (onlyInstalled ==> row.installed) :: row.target in Targets(log, onlyInstalled)
    ensures forall t | t in Targets(log, onlyInstalled) ::
              exists row :: row in log && row.target == t && (onlyInstalled ==> row.installed)
  {
    if log != [] {
      var front, last := log[..|log| - 1], log[|log| - 1];
      assert log == front + [last];
      TargetsMembers(front, onlyInstalled);
    }
  }

  predicate HasName(targets: seq<Target>, name: string) {
    exists u :: u in targets && u.name == name
  }

  lemma NamesOfTargets(log: Log, name: string)
    ensures HasName(Targets(log, true), name) <==> NameInstalled(log, name)
    ensures HasName(Targets(log, false), name) <==> exists row :: row in log && row.target.name == name
  {
    TargetsMembers(log, true);
    TargetsMembers(log, false);
  }

  /** The targets of the log no target of whose name was ever installed. */
  method KnownButNotInstalled(log: Log) returns (versions: seq<Target>)
    ensures forall t :: t in versions <==> t in Targets(log, false) && Failing(log, t.name)
  {
    var known, installed := Targets(log, false), Targets(log, true);
    versions := [];
    for i := 0 to |known|
      invariant forall t :: t in versions <==> t in known[..i] && Failing(log, t.name)
    {
      assert known[..i + 1] == known[..i] + [known[i]];
      NamesOfTargets(log, known[i].name);
      assert HasName(known, known[i].name);
      if !HasName(installed, known[i].name) {
        versions := versions + [known[i]];
      }
    }
    assert known[..|known|] == known;
  }

  /** Some known but never installed row has the name and is not of the pending tree. */
  predicate BadTarget(log: Log, name: string) {
    && !NameInstalled(log, name)
    && exists row :: row in log && row.target.name == name
                     && (PendingTarget(log).Some? ==> row.target.hash != PendingTarget(log).value.hash)
  }

  method KnownLocalTarget(log: Log, name: string, versions: seq<Target>) returns (known: bool)
    ensures known <==> exists t :: t in versions && t.name == name
                                   && (PendingTarget(log).Some? ==> t.hash != PendingTarget(log).value.hash)
  {
    var pending := PendingTarget(log);
    for i := |versions| downto 0
      invariant forall t | t in versions[i..] :: !(t.name == name && (pending.Some? ==> t.hash != pending.value.hash))
    {
      if versions[i].name == name {
        if pending.Some? && versions[i].hash == pending.value.hash {
          continue;
        }
        return true;
      }
    }
    return false;
  }

  method IsRollback(log: Log, name: string) returns (bad: bool)
    ensures bad <==> BadTarget(log, name)
  {
    var versions := KnownButNotInstalled(log);
    bad := KnownLocalTarget(log, name, versions);
    TargetsMembers(log, false);
    if BadTarget(log, name) {
      var row :| row in log && row.target.name == name
                 && (PendingTarget(log).Some? ==> row.target.hash != PendingTarget(log).value.hash);
      assert row.target in versions;
    }
  }

  /** With nothing pending the bad targets are the failing ones. */
  lemma BadIsFailing(log: Log, name: string)
    requires PendingTarget(log).None?
    ensures BadTarget(log, name) <==> Failing(log, name)
  {
  }

  /** A target to roll back to was installed, so it is never a bad one. */
  lemma RollbackTargetIsGood(log: Log, allowCurrent: bool)
    requires Last(IsInstalled(allowCurrent), log).Some?
    ensures !BadTarget(log, RollbackTarget(log, allowCurrent).name)
    ensures NameInstalled(log, RollbackTarget(log, allowCurrent).name)
  {
    LastMatches(IsInstalled(allowCurrent), log);
  }
}
