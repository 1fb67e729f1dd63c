/**
 The root file system tree and the boot firmware: `RootfsTreeManager` (src/rootfstreemanager.cc) and
 `BootloaderLite` (src/bootloader/bootloaderlite.cc).
 */
module RootfsTree {
  import opened Basics
  import opened Strings
  import opened AppPlan

  // ---------------------------------------------------------------------------
  // Versions of the boot firmware
  // ---------------------------------------------------------------------------

  const WATERMARK: string := "bootfirmware_version"
  const BLANKS: set<char> := {' ', '\t', '\r', '\n'}

  /** extractVersionValue: the line without the first watermark and the character after it; `None` if it throws. */
  function ExtractVersion(line: string): Option<string> {
    var pos := Find(line, WATERMARK, 0);
    if pos.None? then None
    else
      var after := pos.value + |WATERMARK|;
      Some(Trim(line[..pos.value] + (if after < |line| then line[after + 1..] else ""), BLANKS))
  }

  predicate IsDigit(c: char) {
    '0' <= c <= '9'
  }

  function Digits(s: string): nat
    requires forall c | c in s :: IsDigit(c)
  {
    if s == "" then 0
    else
      assert IsDigit(s[|s| - 1]);
      10 * Digits(s[..|s| - 1]) + (s[|s| - 1] as int - '0' as int)
  }

  /** boost::lexical_cast<uint64_t>: a sign is accepted, and a minus wraps around. */
  function ParseUInt64(s: string): Option<nat> {
    var digits := if s != "" && s[0] in {'-', '+'} then s[1..] else s;
    if digits == "" || exists c | c in digits :: !IsDigit(c) then None
    else if Digits(digits) >= TWO_64 then None
    else if s[0] == '-' && Digits(digits) > 0 then Some(TWO_64 - Digits(digits))
    else Some(Digits(digits))
  }

  function Digit(n: nat): (c: char)
    requires n < 10
    ensures IsDigit(c) && c as int - '0' as int == n
  {
    ('0' as int + n) as char
  }

  function Decimal(n: nat): string {
    if n < 10 then [Digit(n)] else Decimal(n / 10) + [Digit(n % 10)]
  }

  lemma {:induction false} DecimalDigits(n: nat)
    ensures Decimal(n) != "" && (forall c | c in Decimal(n) :: IsDigit(c)) && Digits(Decimal(n)) == n
  {
    if n >= 10 {
      DecimalDigits(n / 10);
      assert Decimal(n)[..|Decimal(n)| - 1] == Decimal(n / 10);
    } else {
      assert Decimal(n)[..0] == "";
    }
  }

  /** Printing a number and reading it back. */
  lemma ParseDecimal(n: nat)
    requires n < TWO_64
    ensures ParseUInt64(Decimal(n)) == Some(n)
  {
    DecimalDigits(n);
    assert IsDigit(Decimal(n)[0]);
  }

  function VersionLine(version: string, end: string): string {
    WATERMARK + "=" + version + end
  }

  /** The version is read back from a line that was written with it. */
  lemma VersionLineRoundTrip(version: string, end: string)
    requires Trimmed(version, BLANKS) && version != "" && forall c | c in end :: c in BLANKS
    ensures ExtractVersion(VersionLine(version, end)) == Some(version)
  {
    var line := VersionLine(version, end);
    assert OccursAt(line, WATERMARK, 0);
    assert line[..0] + line[|WATERMARK| + 1..] == version + end;
    assert TrimLeft(version + end, BLANKS) == version + end;
    TrimRightBlanks(version, end, BLANKS);
  }

  lemma DecimalLine(n: nat, line: string)
    requires n < TWO_64 && line == VersionLine(Decimal(n), "\n")
    ensures ExtractVersion(line) == Some(Decimal(n)) && Decimal(n) != "" && ParseUInt64(Decimal(n)) == Some(n)
  {
    ParseDecimal(n);
    DecimalDigits(n);
    assert IsDigit(Decimal(n)[0]) && IsDigit(Decimal(n)[|Decimal(n)| - 1]);
    VersionLineRoundTrip(Decimal(n), "\n");
  }

  // ---------------------------------------------------------------------------
  // The bootloader
  // ---------------------------------------------------------------------------

  datatype RollbackMode = BootloaderNone | UbootGeneric | UbootMasked | FioVB | FioEFI

  /** What the bootloader environment, the committed tree and the deployed tree say during one installation.
      Variables and files are `None` if they cannot be read. */
  datatype BootEnv = BootEnv(
    mode: RollbackMode,
    updateBlock: bool,
    flagReadable: bool,
    protection: Option<string>,
    current: Option<string>,
    committed: Option<string>,
    deployed: Option<string>,
    flagWritable: bool)

  predicate UpdateSupported(env: BootEnv) {
    env.mode in {UbootMasked, FioVB, FioEFI}
  }

  predicate Protected(env: BootEnv) {
    UpdateSupported(env) && env.protection == Some("1")
  }

  /** The current firmware version as a number; 0 if it cannot be read or is no number. */
  function CurrentNumber(env: BootEnv): nat {
    if env.current.Some? && ParseUInt64(env.current.value).Some? then ParseUInt64(env.current.value).value else 0
  }

  // ---------------------------------------------------------------------------
  // Trees
  // ---------------------------------------------------------------------------

  /** The booted tree, the tree the next boot tries, and `bootupgrade_available`. */
  datatype Trees = Trees(booted: Hash, next: Hash, upgrade: bool)

  /** The pending deployment, if there is one. */
  function PendingTree(trees: Trees): Option<Hash> {
    if trees.next != trees.booted then Some(trees.next) else None
  }

  predicate InProgress(trees: Trees, env: BootEnv) {
    UpdateSupported(env) && env.flagReadable && trees.upgrade
  }

  function VerifyBootloader(trees: Trees, env: BootEnv): Code {
    if env.updateBlock && InProgress(trees, env) then NeedCompletion
    else if !Protected(env) || env.committed.None? then Ok
    else
      var version := ExtractVersion(env.committed.value);
      if version.None? then InstallFailed
      else if ParseUInt64(version.value).None? then InstallFailed
      else if ParseUInt64(version.value).value < CurrentNumber(env) then InstallFailed
      else Ok
  }

  /** Whether installNotify requests a firmware update. */
  predicate NotifyUpgrades(env: BootEnv) {
    && UpdateSupported(env)
    && env.deployed.Some? && ExtractVersion(env.deployed.value).Some? && ExtractVersion(env.deployed.value).value != ""
    && env.current != ExtractVersion(env.deployed.value)
    && env.flagWritable
  }

  /** What the bootloader decides about one installation: the result of verifyBootloaderUpdate, and whether
      installNotify requests a firmware update. */
  datatype Firmware = Firmware(verdict: Code, upgrades: bool)

  function FirmwareOf(trees: Trees, env: BootEnv): Firmware {
    Firmware(if UpdateSupported(env) then VerifyBootloader(trees, env) else Ok, NotifyUpgrades(env))
  }

  datatype TreeResult = TreeResult(code: Code, trees: Trees)

  /** RootfsTreeManager::install; `deployed` says whether OstreeManager::install succeeds. */
  function InstallTree(trees: Trees, hash: Hash, fw: Firmware, deployed: bool): TreeResult {
    if trees.booted != hash && fw.verdict in {NeedCompletion, InstallFailed} then TreeResult(fw.verdict, trees)
    else if trees.booted == hash && (PendingTree(trees).None? || PendingTree(trees).value == hash)
    then TreeResult(Ok, trees)
    else if !deployed then TreeResult(InstallFailed, trees)
    else TreeResult(if trees.booted == hash then Ok else NeedCompletion,
                    Trees(trees.booted, hash, trees.upgrade || fw.upgrades))
  }

  /** A tree is deployed, be it another one or the booted one again. */
  predicate Deploys(trees: Trees, hash: Hash, fw: Firmware, deployed: bool) {
    && !(trees.booted != hash && fw.verdict in {NeedCompletion, InstallFailed})
    && !(trees.booted == hash && (PendingTree(trees).None? || PendingTree(trees).value == hash))
    && deployed
  }

  /** What the three results say about the trees: with success the next boot is the booted tree, which is the wanted
      one; a needed reboot is for the wanted tree, unless a firmware update blocks the installation. */
  lemma TreeResultMeaning(trees: Trees, hash: Hash, fw: Firmware, deployed: bool)
    ensures var r := InstallTree(trees, hash, fw, deployed);
            && r.trees.booted == trees.booted
            && r.code in {Ok, NeedCompletion, InstallFailed}
            && (r.code == Ok ==> trees.booted == hash == r.trees.next)
            && (r.code == NeedCompletion ==>
                  && trees.booted != hash
                  && if fw.verdict == NeedCompletion then r.trees == trees else r.trees.next == hash)
            && (r.code == InstallFailed ==> r.trees == trees)
  {
  }

  /** Firmware guard, both ways: under rollback protection, installing another tree raises the upgrade flag exactly if
      nothing blocks it, the tree is deployed, and its firmware version is a number not below the current one, but
      is not literally the current one. */
  lemma FirmwareGuard(trees: Trees, hash: Hash, env: BootEnv, deployed: bool)
    requires Protected(env) && trees.booted != hash && env.committed == env.deployed
    ensures InstallTree(trees, hash, FirmwareOf(trees, env), deployed).trees.upgrade <==>
            || trees.upgrade
            || (&& deployed && env.flagWritable
                && env.committed.Some? && ExtractVersion(env.committed.value).Some?
                && ParseUInt64(ExtractVersion(env.committed.value).value).Some?
                && ParseUInt64(ExtractVersion(env.committed.value).value).value >= CurrentNumber(env)
                && env.current != ExtractVersion(env.committed.value))
  {
  }

  /** For version files and variables that hold numbers: under protection the flag is raised exactly for a higher
      version, and without it for every different one. */
  lemma FirmwareGuardNumbers(trees: Trees, hash: Hash, env: BootEnv, line: string, target: nat, current: nat)
    requires UpdateSupported(env) && trees.booted != hash && env.flagWritable && !trees.upgrade
    requires target < TWO_64 && current < TWO_64
    requires line == VersionLine(Decimal(target), "\n") && env.committed == env.deployed == Some(line)
    requires env.current == Some(Decimal(current))
    ensures Protected(env) ==>
              && (InstallTree(trees, hash, FirmwareOf(trees, env), true).trees.upgrade <==> target > current)
              && (InstallTree(trees, hash, FirmwareOf(trees, env), true).code == if target < current then InstallFailed else NeedCompletion)
    ensures !Protected(env) ==> (InstallTree(trees, hash, FirmwareOf(trees, env), true).trees.upgrade <==> target != current)
  {
    DecimalLine(target, line);
    ParseDecimal(current);
  }
}
