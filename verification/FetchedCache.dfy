/**
 The cache of fetched apps of `composeapp::AppEngine` (src/composeapp/appengine.cc), next to the store that the tool
 composectl keeps.  Every command may fail, with part of its effect done.
 */
module FetchedCache {
  import opened Basics
  import opened AppPlan

  /** The apps the store lists, its blobs, and the cache: the URIs known to be fetched. */
  datatype CacheState = CacheState(listed: set<App>, blobs: set<Hash>, cache: set<string>)

  /** The blobs of an app; its URI pins them. */
  type Contents = string -> set<Hash>

  ghost predicate Complete(needs: Contents, s: CacheState, uri: string) {
    (exists app :: app in s.listed && app.uri == uri) && needs(uri) <= s.blobs
  }

  /** Whatever is in the cache is completely in the store. */
  ghost predicate CacheSound(needs: Contents, s: CacheState) {
    forall uri | uri in s.cache :: Complete(needs, s, uri)
  }

  // ---------------------------------------------------------------------------
  // Steps
  // ---------------------------------------------------------------------------

  datatype Op =
    | Fetch(uri: string, ok: bool)
    | Check(uri: string, fetched: bool)
    | Remove(uri: string)
    | Prune(shortlist: set<App>)

  /** A pull only adds to the store, and if it succeeds the app is complete. */
  ghost predicate PullStep(needs: Contents, before: CacheState, uri: string, ok: bool, after: CacheState) {
    && before.listed <= after.listed && before.blobs <= after.blobs
    && after.cache == before.cache - {uri} + (if ok then {uri} else {})
    && (ok ==> Complete(needs, after, uri))
  }

  /** A prune forgets every app it may remove from the list before it removes it, and drops only blobs that no listed
      app needs. */
  ghost predicate PruneStep(needs: Contents, before: CacheState, after: CacheState) {
    && after.listed <= before.listed && after.cache <= before.cache
    && (forall app | app in before.listed && app !in after.listed :: app.uri !in after.cache)
    && (forall app | app in after.listed :: before.blobs * needs(app.uri) <= after.blobs)
  }

  ghost predicate Step(needs: Contents, before: CacheState, op: Op, after: CacheState) {
    match op
    case Fetch(uri, ok) => PullStep(needs, before, uri, ok, after)
    case Check(uri, fetched) =>
      && after == before.(cache := if fetched then before.cache + {uri} else before.cache)
      && (uri in before.cache ==> fetched)
      && (fetched && uri !in before.cache ==> Complete(needs, before, uri))
    case Remove(uri) => after == before.(cache := before.cache - {uri})
    case Prune(_) => PruneStep(needs, before, after)
  }

  lemma StepKeepsCache(needs: Contents, before: CacheState, op: Op, after: CacheState)
    requires CacheSound(needs, before) && Step(needs, before, op, after)
    ensures CacheSound(needs, after)
    ensures op.Check? && op.fetched ==> Complete(needs, after, op.uri)
  {
    forall uri | uri in after.cache ensures Complete(needs, after, uri) {
      if uri in before.cache {
        var app :| app in before.listed && app.uri == uri;
        assert app in after.listed;
      }
    }
  }

  /** Over every interleaving of fetches, checks, removals and prunes, failed ones included, the cache is right, and so
      is every positive answer. */
  lemma {:induction false} CacheAgreesWithStore(needs: Contents, ops: seq<Op>, states: seq<CacheState>)
    requires |states| == |ops| + 1 && CacheSound(needs, states[0])
    requires forall i | 0 <= i < |ops| :: Step(needs, states[i], ops[i], states[i + 1])
    ensures forall i | 0 <= i <= |ops| :: CacheSound(needs, states[i])
    ensures forall i | 0 <= i < |ops| && ops[i].Check? && ops[i].fetched :: Complete(needs, states[i + 1], ops[i].uri)
    decreases |ops|
  {
    if ops != [] {
      var n := |ops| - 1;
      CacheAgreesWithStore(needs, ops[..n], states[..n + 1]);
      forall i | 0 <= i <= n ensures CacheSound(needs, states[i]) {
        assert CacheSound(needs, states[..n + 1][i]);
      }
      forall i | 0 <= i < n && ops[i].Check? && ops[i].fetched
        ensures Complete(needs, states[i + 1], ops[i].uri)
      {
        assert ops[..n][i].Check?;
      }
      StepKeepsCache(needs, states[n], ops[n], states[n + 1]);
    }
  }

  // ---------------------------------------------------------------------------
  // The engine
  // ---------------------------------------------------------------------------

  /** The engine, on top of commands each of which decides arbitrarily whether it fails. */
  class Engine {
    const needs: Contents
    var listed: set<App>
    var blobs: set<Hash>
    var cache: set<string>

    constructor (needs: Contents, listed: set<App>, blobs: set<Hash>)
      ensures this.needs == needs && Snapshot() == CacheState(listed, blobs, {})
    {
      this.needs, this.listed, this.blobs, cache := needs, listed, blobs, {};
    }

    function Snapshot(): CacheState
      reads this
    {
      CacheState(listed, blobs, cache)
    }

    /** `composectl pull`: fails with any part of the app stored. */
    method Pull(app: App) returns (ok: bool)
      modifies `listed, `blobs
      ensures old(listed) <= listed && old(blobs) <= blobs
      ensures ok ==> Complete(needs, Snapshot(), app.uri)
    {
      var pulled: set<Hash>, lists: bool, fails: bool := *, *, *;
      blobs := blobs + pulled;
      if lists {
        listed := listed + {app};
      }
      ok := !fails && lists && needs(app.uri) <= blobs;
    }

    /** `composectl check`: reports nothing missing only for a complete app; `None` if it fails. */
    method CheckStore(uri: string) returns (nothingMissing: Option<bool>)
      ensures nothingMissing == Some(true) ==> Complete(needs, Snapshot(), uri)
    {
      var fails: bool := *;
      return if fails then None else Some((exists app | app in listed :: app.uri == uri) && needs(uri) <= blobs);
    }

    /** `composectl ls`: `None` if it fails; entries without a name or a URI are skipped. */
    method List() returns (apps: Option<set<App>>)
      ensures apps.Some? ==> apps.value <= listed
    {
      var fails: bool, skipped: set<App> := *, *;
      return if fails then None else Some(listed - skipped);
    }

    /** `composectl rm`: removes the apps with the URI from the list; it may have done so even if it fails. */
    method Rm(uri: string) returns (ok: bool)
      modifies `listed
      ensures forall app :: app in listed ==> app in old(listed)
      ensures forall app | app in old(listed) && app.uri != uri :: app in listed
      ensures ok ==> forall app | app in listed :: app.uri != uri
    {
      var done: bool, fails: bool := *, *;
      if done {
        listed := set app | app in listed && app.uri != uri;
      }
      ok := done && !fails;
    }

    /** `composectl prune`: drops blobs that no listed app needs, all of them unless it fails. */
    method PruneBlobs() returns (ok: bool)
      modifies `blobs
      ensures blobs <= old(blobs)
      ensures forall app | app in listed :: old(blobs) * needs(app.uri) <= blobs
      ensures ok ==> forall blob | blob in blobs :: exists app :: app in listed && blob in needs(app.uri)
    {
      var kept: set<Hash> := *;
      ok := *;
      blobs := set blob | blob in blobs
                          && ((!ok && blob in kept) || exists app | app in listed :: blob in needs(app.uri));
    }

    method FetchApp(app: App) returns (ok: bool)
      modifies this
      ensures Step(needs, old(Snapshot()), Fetch(app.uri, ok), Snapshot())
    {
      cache := cache - {app.uri};
      ok := Pull(app);
      if ok {
        cache := cache + {app.uri};
      }
    }

    /** The commands that stop and uninstall an app do not touch the store. */
    method RemoveApp(app: App)
      modifies `cache
      ensures Step(needs, old(Snapshot()), Remove(app.uri), Snapshot())
    {
      cache := cache - {app.uri};
    }

    method IsAppFetched(app: App) returns (r: bool)
      modifies `cache
      ensures Step(needs, old(Snapshot()), Check(app.uri, r), Snapshot())
    {
      if app.uri in cache {
        assert cache + {app.uri} == cache;
        return true;
      }
      var nothingMissing := CheckStore(app.uri);
      r := nothingMissing == Some(true);
      if r {
        cache := cache + {app.uri};
      }
    }

    /** The first half of prune: takes apps off the list until a command fails. */
    method RemoveUnlisted(shortlist: set<App>) returns (ok: bool)
      modifies `listed, `cache
      ensures listed <= old(listed) && cache <= old(cache)
      ensures forall app | app in old(listed) && app !in listed :: app.uri !in cache
      ensures forall app | app in old(listed) && app !in listed ::
                exists other :: other in old(listed) && other !in shortlist && other.uri == app.uri
      ensures forall uri | uri in old(cache) && uri !in cache ::
                exists other :: other in old(listed) && other !in shortlist && other.uri == uri
    {
      var apps := List();
      if apps.None? {
        return false;
      }
      var todo := apps.value - shortlist;
      ok := true;
      while todo != {} && ok
        invariant todo <= old(listed) - shortlist
        invariant listed <= old(listed) && cache <= old(cache)
        invariant forall app | app in old(listed) && app !in listed :: app.uri !in cache
        invariant forall app | app in old(listed) && app !in listed ::
                    exists other :: other in old(listed) && other !in shortlist && other.uri == app.uri
        invariant forall uri | uri in old(cache) && uri !in cache ::
                    exists other :: other in old(listed) && other !in shortlist && other.uri == uri
        decreases todo
      {
        var app :| app in todo;
        todo := todo - {app};
        cache := cache - {app.uri};
        ok := Rm(app.uri);
      }
    }

    method PruneApps(shortlist: set<App>)
      modifies this
      ensures Step(needs, old(Snapshot()), Prune(shortlist), Snapshot())
      ensures forall app | app in old(listed) && app !in listed ::
                exists other :: other in old(listed) && other !in shortlist && other.uri == app.uri
    {
      var removed := RemoveUnlisted(shortlist);
      var pruned := PruneBlobs();
    }
  }
}
