/**
 Which targets are offered to a device (src/api.cc): matching and sorting the targets of the metadata, choosing one,
 and narrowing the list to what an offline bundle contains.
 */
module Selection {
  import opened Basics
  import opened AppPlan
  import opened InstallLog

  /** The field `fetched-apps`; members that are missing or are not strings read as empty. */
  datatype FetchedApps = Absent | Fetched(uri: string, shortlist: string)

  datatype Candidate = Candidate(target: Target, format: string, tags: set<string>, fetched: FetchedApps)

  // ---------------------------------------------------------------------------
  // filterTargets
  // ---------------------------------------------------------------------------

  predicate Matching(c: Candidate, hwid: string, tags: set<string>, secondary: seq<string>) {
    && c.format == "OSTREE"
    && (tags == {} || c.tags * tags != {})
    && (c.target.hwid == hwid || c.target.hwid in secondary)
  }

  predicate Ascending(targets: seq<Candidate>) {
    forall i, j | 0 <= i < j < |targets| :: targets[i].target.version <= targets[j].target.version
  }

  lemma Spliced(a: seq<Candidate>, c: Candidate, b: seq<Candidate>)
    requires Ascending(a + b)
    requires a != [] ==> a[|a| - 1].target.version <= c.target.version
    requires b != [] ==> c.target.version <= b[0].target.version
    ensures Ascending(a + [c] + b)
  {
    var ab, acb := a + b, a + [c] + b;
    forall i, j | 0 <= i < j < |acb| ensures acb[i].target.version <= acb[j].target.version {
      assert i < |a| ==> acb[i] == ab[i] && ab[i].target.version <= ab[|a| - 1].target.version;
      assert j > |a| ==> acb[j] == ab[j - 1] && ab[|a|].target.version <= ab[j - 1].target.version;
      assert i > |a| ==> acb[i] == ab[i - 1] && ab[i - 1].target.version <= ab[j - 1].target.version;
      assert j < |a| ==> acb[j] == ab[j];
    }
  }

  lemma SplicedContents(a: seq<Candidate>, c: Candidate, b: seq<Candidate>)
    ensures multiset(a + [c] + b) == multiset(a + b) + multiset{c}
  {
    assert multiset(a + [c] + b) == multiset(a) + multiset([c]) + multiset(b);
  }

  /** Where a target goes in a sorted list; the order of equal versions is arbitrary. */
  method Place(sorted: seq<Candidate>, version: int) returns (i: nat)
    ensures i <= |sorted|
    ensures i > 0 ==> sorted[i - 1].target.version <= version
    ensures i < |sorted| ==> version < sorted[i].target.version
  {
    i := |sorted|;
    while i > 0 && sorted[i - 1].target.version > version
      invariant i <= |sorted|
      invariant i < |sorted| ==> sorted[i].target.version > version
    {
      i := i - 1;
    }
  }

  method Insert(sorted: seq<Candidate>, c: Candidate) returns (r: seq<Candidate>)
    requires Ascending(sorted)
    ensures Ascending(r) && multiset(r) == multiset(sorted) + multiset{c}
  {
    var i := Place(sorted, c.target.version);
    var a, b := sorted[..i], sorted[i..];
    assert sorted == a + b;
    Spliced(a, c, b);
    SplicedContents(a, c, b);
    r := a + [c] + b;
  }

  /** Exactly the matching targets, as often as they occur, by ascending version. */
  method FilterTargets(all: seq<Candidate>, hwid: string, tags: set<string>, secondary: seq<string>)
    returns (r: seq<Candidate>)
    ensures Ascending(r)
    ensures forall c :: multiset(r)[c] == if Matching(c, hwid, tags, secondary) then multiset(all)[c] else 0
  {
    r := [];
    for i := 0 to |all|
      invariant Ascending(r)
      invariant forall c :: multiset(r)[c] == if Matching(c, hwid, tags, secondary) then multiset(all[..i])[c] else 0
    {
      assert all[..i + 1] == all[..i] + [all[i]];
      if all[i].format != "OSTREE" {
        continue;
      }
      if tags != {} && all[i].tags * tags == {} {
        continue;
      }
      if all[i].target.hwid == hwid || all[i].target.hwid in secondary {
        r := Insert(r, all[i]);
      }
    }
    assert all[..|all|] == all;
  }

  // ---------------------------------------------------------------------------
  // SelectTarget
  // ---------------------------------------------------------------------------

  function LatestFor(targets: seq<Target>, hwid: string): Option<Target> {
    if targets == [] then None
    else if targets[|targets| - 1].hwid == hwid then Some(targets[|targets| - 1])
    else LatestFor(targets[..|targets| - 1], hwid)
  }

  function FirstFor(targets: seq<Target>, version: int, name: string, hwid: string): Option<Target> {
    if targets == [] then None
    else if (targets[0].version == version || targets[0].name == name) && targets[0].hwid == hwid then Some(targets[0])
    else FirstFor(targets[1..], version, name, hwid)
  }

  /** Version -1 without a name means the latest target. */
  function SelectTarget(targets: seq<Target>, version: int, name: string, hwid: string): Option<Target> {
    if version == -1 && name == "" then LatestFor(targets, hwid) else FirstFor(targets, version, name, hwid)
  }

  predicate AscendingVersions(targets: seq<Target>) {
    forall i, j | 0 <= i < j < |targets| :: targets[i].version <= targets[j].version
  }

  /** In an ascending list the default choice is a highest version for the hardware id, and there is none exactly if
      no target has the hardware id. */
  lemma {:induction false} DefaultChoice(targets: seq<Target>, hwid: string)
    requires AscendingVersions(targets)
    ensures SelectTarget(targets, -1, "", hwid).None? <==> forall t | t in targets :: t.hwid != hwid
    ensures var r := SelectTarget(targets, -1, "", hwid);
            r.Some? ==> r.value in targets && r.value.hwid == hwid
                        && forall t | t in targets && t.hwid == hwid :: t.version <= r.value.version
    decreases |targets|
  {
    if targets != [] {
      var front, last := targets[..|targets| - 1], targets[|targets| - 1];
      assert targets == front + [last];
      DefaultChoice(front, hwid);
    }
  }

  lemma {:induction false} FirstForMatches(targets: seq<Target>, version: int, name: string, hwid: string)
    ensures var r := FirstFor(targets, version, name, hwid);
            r.Some? ==> r.value in targets && r.value.hwid == hwid && (r.value.version == version || r.value.name == name)
  {
    if targets != [] {
      FirstForMatches(targets[1..], version, name, hwid);
    }
  }

  // ---------------------------------------------------------------------------
  // getAppsFetchedForOfflineUpdate
  // ---------------------------------------------------------------------------

  datatype Shortlist = AllApps | NoApps | OnlyApps(names: set<string>)

  predicate Delimiter(c: char) {
    c == ',' || c == ' '
  }

  /** The tokens of the list; runs of delimiters count as one. */
  function Tokens(s: string): set<string> {
    set i, j | 0 <= i <= j <= |s| && (i == 0 || Delimiter(s[i - 1])) && (j == |s| || Delimiter(s[j]))
               && (forall k | i <= k < j :: !Delimiter(s[k])) && (i < j || i == 0 || j == |s|)
      :: s[i..j]
  }

  function OfflineShortlist(fetched: FetchedApps, apps: TargetApps): Shortlist {
    if fetched.Absent? then AllApps
    else if fetched.uri == "" then NoApps
    else if fetched.shortlist == "" then AllApps
    else
      var names := Tokens(fetched.shortlist) * apps.Keys;
      if names == {} then NoApps else OnlyApps(names)
  }

  // ---------------------------------------------------------------------------
  // getAvailableTargets
  // ---------------------------------------------------------------------------

  /** What a bundle contains: commits and app URIs. */
  datatype Bundle = Bundle(commits: set<Hash>, apps: set<string>)

  /** The apps of a target that an offline update considers. */
  function Considered(c: Candidate): TargetApps {
    var shortlist := OfflineShortlist(c.fetched, c.target.apps);
    match shortlist
    case AllApps => c.target.apps
    case NoApps => map[]
    case OnlyApps(names) => map name | name in c.target.apps && name in names :: c.target.apps[name]
  }

  /** The bundle has the commit and, for a device with apps, every app that it requires of the considered ones. */
  ghost predicate Complete(cfg: Config, withApps: bool, bundle: Bundle, c: Candidate) {
    && c.target.hash in bundle.commits
    && (withApps ==>
          forall name | name in Required(cfg, Considered(c)) :: Required(cfg, Considered(c))[name] in bundle.apps)
  }

  function Trimmed(withApps: bool, c: Candidate): Target {
    if withApps then c.target.(apps := Considered(c)) else c.target
  }

  /** getRequiredApps throws for a target that gets as far. */
  predicate Malformed(cfg: Config, withApps: bool, bundle: Bundle, c: Candidate) {
    withApps && c.target.hash in bundle.commits && !OfflineShortlist(c.fetched, c.target.apps).NoApps?
    && RequiredThrows(cfg, c.target.apps)
  }

  /** The code looks at the required apps of the whole target and skips those that are not on the shortlist. */
  lemma RequiredOfConsidered(cfg: Config, c: Candidate)
    ensures match OfflineShortlist(c.fetched, c.target.apps)
            case AllApps => Required(cfg, Considered(c)) == Required(cfg, c.target.apps)
            case NoApps => Required(cfg, Considered(c)) == map[]
            case OnlyApps(names) =>
              Required(cfg, Considered(c))
              == map name | name in Required(cfg, c.target.apps) && name in names :: Required(cfg, c.target.apps)[name]
  {
    match OfflineShortlist(c.fetched, c.target.apps)
    case AllApps =>
    case NoApps =>
      assert Required(cfg, map[]).Keys == {};
    case OnlyApps(names) =>
      var small, whole := Required(cfg, Considered(c)), Required(cfg, c.target.apps);
      forall name ensures name in small <==> name in whole && name in names {
        assert name in Considered(c) <==> name in c.target.apps && name in names;
      }
  }

  /** What the loop over the required apps finds missing. */
  predicate MissingApp(bundle: Bundle, shortlist: Shortlist, name: string, uri: string) {
    uri !in bundle.apps && (shortlist.AllApps? || (shortlist.OnlyApps? && name in shortlist.names))
  }

  lemma CompleteIff(cfg: Config, bundle: Bundle, c: Candidate)
    requires c.target.hash in bundle.commits && !OfflineShortlist(c.fetched, c.target.apps).NoApps?
    ensures var required := Required(cfg, c.target.apps);
            Complete(cfg, true, bundle, c) <==>
            forall name | name in required ::
              !MissingApp(bundle, OfflineShortlist(c.fetched, c.target.apps), name, required[name])
  {
    var shortlist, required := OfflineShortlist(c.fetched, c.target.apps), Required(cfg, c.target.apps);
    var considered := Required(cfg, Considered(c));
    RequiredOfConsidered(cfg, c);
    forall name | name in required
      ensures name in considered <==> shortlist.AllApps? || name in shortlist.names
      ensures name in considered ==> considered[name] == required[name]
    {
    }
    assert considered.Keys <= required.Keys;
  }

  method MissingApps(bundle: Bundle, shortlist: Shortlist, required: AppMap) returns (missing: set<string>)
    requires !shortlist.NoApps?
    ensures missing == {} <==> forall name | name in required :: !MissingApp(bundle, shortlist, name, required[name])
  {
    missing := {};
    var todo := required.Keys;
    while todo != {}
      invariant todo <= required.Keys
      invariant missing == {} <==>
                  forall name | name in required && name !in todo :: !MissingApp(bundle, shortlist, name, required[name])
    {
      var name :| name in todo;
      todo := todo - {name};
      if required[name] !in bundle.apps && (shortlist.AllApps? || name in shortlist.names) {
        missing := missing + {required[name]};
      }
    }
  }

  /** The targets of `all` that are complete, in their order, trimmed. */
  ghost function Offered(cfg: Config, withApps: bool, bundle: Bundle, all: seq<Candidate>): seq<Target> {
    if all == [] then []
    else
      var n := |all| - 1;
      Offered(cfg, withApps, bundle, all[..n]) + if Complete(cfg, withApps, bundle, all[n]) then [Trimmed(withApps, all[n])] else []
  }

  /** Throws exactly if, on a device with apps, a target with a malformed app gets as far as its apps. */
  method GetAvailableTargets(cfg: Config, withApps: bool, bundle: Bundle, allowed: seq<Candidate>) returns (r: Option<seq<Target>>)
    ensures r.None? <==> exists i :: 0 <= i < |allowed| && Malformed(cfg, withApps, bundle, allowed[i])
    ensures r.Some? ==> r.value == Offered(cfg, withApps, bundle, allowed)
  {
    var found: seq<Target> := [];
    for i := 0 to |allowed|
      invariant forall j | 0 <= j < i :: !Malformed(cfg, withApps, bundle, allowed[j])
      invariant found == Offered(cfg, withApps, bundle, allowed[..i])
    {
      var c := allowed[i];
      assert allowed[..i + 1][..i] == allowed[..i];
      if c.target.hash !in bundle.commits {
        continue;
      }
      if !withApps {
        found := found + [c.target];
        continue;
      }
      var shortlist := OfflineShortlist(c.fetched, c.target.apps);
      if shortlist.NoApps? {
        RequiredOfConsidered(cfg, c);
        found := found + [c.target.(apps := map[])];
        continue;
      }
      if RequiredThrows(cfg, c.target.apps) {
        assert Malformed(cfg, withApps, bundle, allowed[i]);
        return None;
      }
      var missing := MissingApps(bundle, shortlist, Required(cfg, c.target.apps));
      CompleteIff(cfg, bundle, c);
      if missing != {} {
        continue;
      }
      var apps := c.target.apps;
      if shortlist.OnlyApps? {
        apps := map name | name in apps && name in shortlist.names :: apps[name];
      }
      found := found + [c.target.(apps := apps)];
    }
    assert allowed[..|allowed|] == allowed;
    return Some(found);
  }

  /** Offline closure: an offered target is one of the list whose commit, and whose every app that the device requires
      after the trimming, is in the bundle. */
  lemma {:induction false} OfferedIsClosed(cfg: Config, withApps: bool, bundle: Bundle, all: seq<Candidate>, t: Target)
    requires t in Offered(cfg, withApps, bundle, all)
    ensures t.hash in bundle.commits
    ensures withApps ==> forall name | name in Required(cfg, t.apps) :: Required(cfg, t.apps)[name] in bundle.apps
    ensures exists c :: c in all && t == Trimmed(withApps, c)
    decreases |all|
  {
    var n := |all| - 1;
    if t in Offered(cfg, withApps, bundle, all[..n]) {
      OfferedIsClosed(cfg, withApps, bundle, all[..n], t);
    }
  }

  /** Every complete target is offered. */
  lemma {:induction false} CompleteIsOffered(cfg: Config, withApps: bool, bundle: Bundle, all: seq<Candidate>, c: Candidate)
    requires c in all && Complete(cfg, withApps, bundle, c)
    ensures Trimmed(withApps, c) in Offered(cfg, withApps, bundle, all)
    decreases |all|
  {
    var n := |all| - 1;
    assert all == all[..n] + [all[n]];
    if c != all[n] {
      CompleteIsOffered(cfg, withApps, bundle, all[..n], c);
    }
  }

  /** The version order is kept. */
  lemma {:induction false} OfferedIsAscending(cfg: Config, withApps: bool, bundle: Bundle, all: seq<Candidate>)
    requires Ascending(all)
    ensures AscendingVersions(Offered(cfg, withApps, bundle, all))
    ensures forall t | t in Offered(cfg, withApps, bundle, all) :: exists c :: c in all && c.target.version == t.version
    decreases |all|
  {
    if all != [] {
      var n := |all| - 1;
      OfferedIsAscending(cfg, withApps, bundle, all[..n]);
      assert all == all[..n] + [all[n]];
      var front := Offered(cfg, withApps, bundle, all[..n]);
      forall t | t in front ensures t.version <= all[n].target.version {
        var c :| c in all[..n] && c.target.version == t.version;
      }
    }
  }

  /** So the default choice of an offline update is a complete target of the highest version for the hardware id. */
  lemma OfflineDefaultChoice(cfg: Config, withApps: bool, bundle: Bundle, all: seq<Candidate>, hwid: string, c: Candidate)
    requires Ascending(all) && c in all && c.target.hwid == hwid && Complete(cfg, withApps, bundle, c)
    ensures var r := SelectTarget(Offered(cfg, withApps, bundle, all), -1, "", hwid);
            && r.Some? && r.value.hwid == hwid && r.value.version >= c.target.version
            && r.value.hash in bundle.commits
            && (withApps ==>
                  forall name | name in Required(cfg, r.value.apps) :: Required(cfg, r.value.apps)[name] in bundle.apps)
  {
    OfferedIsAscending(cfg, withApps, bundle, all);
    CompleteIsOffered(cfg, withApps, bundle, all, c);
    DefaultChoice(Offered(cfg, withApps, bundle, all), hwid);
    OfferedIsClosed(cfg, withApps, bundle, all, SelectTarget(Offered(cfg, withApps, bundle, all), -1, "", hwid).value);
  }
}
