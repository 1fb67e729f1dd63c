/**
 `Docker::RestorableAppEngine` as an object that changes the store in place
 (src/docker/restorableappengine.cc).  Directory listings come in no particular order.
 */
module RestorableAppEngine {
  import opened Basics
  import opened AppStore

  datatype PruneResult = Done(dockerPruned: bool) | Aborted

  /** What happens during a fetch: the directory as pullApp leaves it and whether it gets to its end, whether the
      update fits, and the image directories and blobs that are copied and whether all are. */
  datatype Fetching = Fetching(
    dir: AppDir,
    pulled: bool,
    fits: bool,
    images: map<ImageRef, Option<IndexFile>>,
    blobs: Blobs,
    copied: bool)

  class Engine {
    var apps: map<string, map<Hash, AppDir>>
    var blobs: Blobs
    var hasBlobsDir: bool

    function Snapshot(): Store
      reads this
    {
      Store(apps, blobs, hasBlobsDir)
    }

    constructor (s: Store)
      ensures Snapshot() == s
    {
      apps, blobs, hasBlobsDir := s.apps, s.blobs, s.hasBlobsDir;
    }

    // -------------------------------------------------------------------------
    // isAppFetched
    // -------------------------------------------------------------------------

    method SetDir(app: AppRef, dir: AppDir)
      requires Exists(Snapshot(), app)
      modifies this`apps
      ensures Snapshot() == WithDir(old(Snapshot()), app, dir)
    {
      apps := apps[app.name := apps[app.name][app.hash := dir]];
    }

    method AreLayersFetched(app: AppRef, ref: ImageRef, layers: seq<LayerEntry>) returns (ok: bool)
      requires Exists(Snapshot(), app)
      modifies this`apps, this`blobs
      ensures ok == LayersVerdict(old(blobs), layers, ref).fetched
      ensures Snapshot() == Repaired(old(Snapshot()), app, LayersVerdict(old(blobs), layers, ref).repair)
    {
      var dir := apps[app.name][app.hash];
      for i := 0 to |layers|
        invariant Snapshot() == old(Snapshot())
        invariant LayersVerdict(blobs, layers, ref) == LayersVerdict(blobs, layers[i..], ref)
      {
        if layers[i].NotALayer? || layers[i].size.NoSize? {
          return false;
        }
        if layers[i].digest.None? || layers[i].size.BadSize? {
          SetDir(app, dir.(images := dir.images - {ref}));
          return false;
        }
        var digest := layers[i].digest.value;
        if digest !in blobs {
          return false;
        }
        if blobs[digest].size != ToUnsigned(layers[i].size.bytes) {
          blobs := blobs - {digest};
          return false;
        }
        assert layers[i..][1..] == layers[i + 1..];
      }
      return true;
    }

    method IsImageFetched(app: AppRef, ref: ImageRef) returns (ok: bool)
      requires Exists(Snapshot(), app)
      modifies this`apps, this`blobs
      ensures var v := ImageVerdict(old(apps[app.name][app.hash].images), old(blobs), ref);
              ok == v.fetched && Snapshot() == Repaired(old(Snapshot()), app, v.repair)
    {
      var dir := apps[app.name][app.hash];
      if ref !in dir.images || dir.images[ref].None? {
        return false;
      }
      var index := dir.images[ref].value;
      if index.NotAnIndex? {
        SetDir(app, dir.(images := dir.images[ref := None]));
        return false;
      }
      if index.BadDigest? {
        SetDir(app, dir.(images := dir.images - {ref}));
        return false;
      }
      if index.manifest !in blobs || blobs[index.manifest].hash != index.manifest {
        return false;
      }
      var m := blobs[index.manifest].manifest;
      if m.config.None? {
        SetDir(app, dir.(images := dir.images - {ref}));
        return false;
      }
      if m.config.value !in blobs || blobs[m.config.value].hash != m.config.value {
        return false;
      }
      ok := AreLayersFetched(app, ref, m.layers);
    }

    /** `threw` is an exception on an image that is not a pinned URI. */
    method AreAppImagesFetched(app: AppRef, refs: seq<Option<ImageRef>>) returns (ok: bool, threw: bool)
      requires Exists(Snapshot(), app)
      modifies this`apps, this`blobs
      ensures var v := ImagesVerdict(old(apps[app.name][app.hash].images), old(blobs), refs);
              ok == v.fetched && Snapshot() == Repaired(old(Snapshot()), app, v.repair)
      ensures threw <==> ImagesThrow(old(apps[app.name][app.hash].images), old(blobs), refs)
    {
      ghost var images := apps[app.name][app.hash].images;
      for i := 0 to |refs|
        invariant Snapshot() == old(Snapshot())
        invariant ImagesVerdict(images, blobs, refs) == ImagesVerdict(images, blobs, refs[i..])
        invariant FetchedBefore(images, blobs, refs, i)
      {
        if refs[i].None? {
          return false, true;
        }
        ImageVerdictSound(images, blobs, refs[i].value);
        ok := IsImageFetched(app, refs[i].value);
        if !ok {
          return false, false;
        }
        assert refs[i..][1..] == refs[i + 1..];
      }
      return true, false;
    }

    /** Answers whether the app is completely in the store, and deletes what it finds broken. It may throw instead of
        answering no. */
    method IsAppFetched(app: AppRef) returns (res: bool, threw: bool)
      modifies this`apps, this`blobs
      ensures res <==> IsFetched(old(Snapshot()), app)
      ensures threw <==> CheckAborts(old(Snapshot()), app)
      ensures Snapshot() == Checked(old(Snapshot()), app)
    {
      VerdictSound(Snapshot(), app);
      if app.name !in apps || app.hash !in apps[app.name] {
        return false, false;
      }
      var dir := apps[app.name][app.hash];
      if dir.manifest.None? || dir.manifest.value.hash != app.hash {
        return false, false;
      }
      if dir.manifest.value.body.None? || dir.manifest.value.body.value.archive.None? {
        return false, true;
      }
      var archive := dir.manifest.value.body.value.archive.value;
      if archive !in dir.archives || dir.archives[archive].hash != archive {
        return false, false;
      }
      if dir.archives[archive].compose.None? {
        return false, true;
      }
      var compose := dir.archives[archive].compose.value;
      SetDir(app, dir.(compose := compose));
      if compose.None? {
        return false, true;
      }
      res, threw := AreAppImagesFetched(app, compose.value.images);
    }

    // -------------------------------------------------------------------------
    // fetch
    // -------------------------------------------------------------------------

    method WriteDir(app: AppRef, dir: AppDir)
      modifies this`apps
      ensures FetchedInto(old(Snapshot()), app, Snapshot())
      ensures Exists(Snapshot(), app) && apps[app.name][app.hash] == dir
    {
      var versions := if app.name in apps then apps[app.name] else map[];
      apps := apps[app.name := versions[app.hash := dir]];
    }

    method RemoveDir(app: AppRef)
      modifies this`apps
      ensures FetchedInto(old(Snapshot()), app, Snapshot()) && !Exists(Snapshot(), app)
    {
      if app.name in apps {
        apps := apps[app.name := apps[app.name] - {app.hash}];
      }
    }

    /** Whether a fetch gets as far as copying the images. */
    ghost predicate Copies(s: Store, app: AppRef, happens: Fetching) {
      !CheckAborts(s, app) && (IsFetched(s, app) || happens.pulled) && happens.fits
    }

    /** Images and blobs come in addition, and with the first blob the directory for them. */
    method CopyImages(app: AppRef, happens: Fetching)
      requires Exists(Snapshot(), app)
      modifies this`apps, this`blobs, this`hasBlobsDir
      ensures FetchedInto(old(Snapshot()), app, Snapshot()) && Exists(Snapshot(), app)
      ensures hasBlobsDir <==> old(hasBlobsDir) || happens.blobs != map[]
    {
      var dir := apps[app.name][app.hash];
      WriteDir(app, dir.(images := dir.images + happens.images));
      blobs := happens.blobs + blobs;
      hasBlobsDir := hasBlobsDir || happens.blobs != map[];
    }

    /** The part of fetch that may throw; says whether it got to its end. */
    method TryFetch(app: AppRef, happens: Fetching) returns (ok: bool)
      modifies this`apps, this`blobs, this`hasBlobsDir
      ensures FetchedInto(Checked(old(Snapshot()), app), app, Snapshot())
      ensures ok <==> Copies(old(Snapshot()), app, happens) && happens.copied
      ensures ok ==> Exists(Snapshot(), app)
      ensures !Copies(old(Snapshot()), app, happens) ==> blobs == Checked(old(Snapshot()), app).blobs
      ensures hasBlobsDir <==> old(hasBlobsDir) || (Copies(old(Snapshot()), app, happens) && happens.blobs != map[])
    {
      var fetched, threw := IsAppFetched(app);
      if threw {
        return false;
      }
      if !fetched {
        WriteDir(app, happens.dir);
        if !happens.pulled {
          return false;
        }
      }
      if !happens.fits {
        return false;
      }
      CopyImages(app, happens);
      ok := happens.copied;
    }

    /** A fetch that fails removes the directory of the app; blobs only ever come in addition. */
    method Fetch(app: AppRef, happens: Fetching) returns (ok: bool)
      modifies this`apps, this`blobs, this`hasBlobsDir
      ensures ok <==> Copies(old(Snapshot()), app, happens) && happens.copied
      ensures ok <==> Exists(Snapshot(), app)
      ensures !Copies(old(Snapshot()), app, happens) ==> blobs == Checked(old(Snapshot()), app).blobs
      ensures hasBlobsDir <==> old(hasBlobsDir) || (Copies(old(Snapshot()), app, happens) && happens.blobs != map[])
      ensures FetchedInto(Checked(old(Snapshot()), app), app, Snapshot())
      ensures forall b: AppRef | b != app && IsFetched(old(Snapshot()), b) && SizesAgree(old(Snapshot()), app, b) ::
                IsFetched(Snapshot(), b)
    {
      ghost var s := Snapshot();
      ok := TryFetch(app, happens);
      if !ok {
        RemoveDir(app);
      }
      forall b: AppRef | b != app && IsFetched(s, b) && SizesAgree(s, app, b) ensures IsFetched(Snapshot(), b) {
        FetchFrame(s, app, Snapshot(), b);
      }
    }

    // -------------------------------------------------------------------------
    // prune
    // -------------------------------------------------------------------------

    static method MarkListed(listed: seq<Option<Hash>>) returns (marks: set<Hash>)
      ensures marks == ListedMarks(listed)
    {
      marks := {};
      for i := 0 to |listed|
        invariant marks + ListedMarks(listed[i..]) == ListedMarks(listed)
      {
        if listed[i].None? {
          return;
        }
        marks := marks + {listed[i].value};
        assert listed[i..][1..] == listed[i + 1..];
      }
    }

    static method MarkLayers(layers: seq<LayerEntry>) returns (marks: set<Hash>, readable: bool)
      ensures marks == LayerMarks(layers) && (readable <==> LayersReadable(layers))
    {
      marks := {};
      for i := 0 to |layers|
        invariant marks + LayerMarks(layers[i..]) == LayerMarks(layers)
        invariant forall j | 0 <= j < i :: layers[j].Entry? ==> layers[j].digest.Some?
      {
        if layers[i].Entry? {
          if layers[i].digest.None? {
            return marks, false;
          }
          marks := marks + {layers[i].digest.value};
        }
        assert layers[i..][1..] == layers[i + 1..];
      }
      readable := true;
    }

    /** Marks what one image directory leads to; `readable` says that nothing on the way threw. */
    method MarkImage(images: map<ImageRef, Option<IndexFile>>, ref: ImageRef) returns (marks: set<Hash>, readable: bool)
      ensures marks == ImageMarks(images, blobs, ref) && (readable <==> ImageReadable(images, blobs, ref))
    {
      marks, readable := {ref.digest}, false;
      if ref in images && images[ref].Some? && images[ref].value.Index? {
        var digest := images[ref].value.manifest;
        marks := marks + {digest};
        if digest in blobs && blobs[digest].manifest.config.Some? {
          var layerMarks;
          layerMarks, readable := MarkLayers(blobs[digest].manifest.layers);
          marks := marks + {blobs[digest].manifest.config.value} + layerMarks;
        }
      }
    }

    /** Marks the images of the services in turn; `left` are the image directories that remain. */
    method MarkImages(images: map<ImageRef, Option<IndexFile>>, refs: seq<Option<ImageRef>>)
      returns (ok: bool, marks: set<Hash>, left: map<ImageRef, Option<IndexFile>>)
      ensures ok <==> forall i | 0 <= i < |refs| :: refs[i].Some?
      ensures exists seen :: left == CleanedImages(images, blobs, seen)
      ensures ok ==> left == CleanedImages(images, blobs, Refs(refs)) && marks == ImagesMarks(images, blobs, Refs(refs))
    {
      marks, left := {}, images;
      for i := 0 to |refs|
        invariant forall j | 0 <= j < i :: refs[j].Some?
        invariant left == CleanedImages(images, blobs, Refs(refs[..i]))
        invariant marks == ImagesMarks(images, blobs, Refs(refs[..i]))
      {
        if refs[i].None? {
          return false, marks, left;
        }
        RefsExtend(refs, i);
        MarksExtend(images, blobs, Refs(refs[..i]), refs[i].value);
        var imageMarks, readable := MarkImage(left, refs[i].value);
        marks := marks + imageMarks;
        if !readable {
          left := left - {refs[i].value};
        }
        assert left == CleanedImages(images, blobs, Refs(refs[..i + 1]));
      }
      assert refs[..|refs|] == refs;
      ok := true;
    }

    /** Marks the kept version of an app and removes its unreadable image directories. */
    method MarkVersion(app: AppRef) returns (ok: bool, marks: set<Hash>)
      requires Exists(Snapshot(), app)
      modifies this`apps
      ensures ok == !DirAborts(old(apps[app.name][app.hash]))
      ensures Exists(Snapshot(), app) && Snapshot() == WithDir(old(Snapshot()), app, apps[app.name][app.hash])
      ensures DirPartlyCleaned(old(apps[app.name][app.hash]), apps[app.name][app.hash], blobs)
      ensures ok ==> apps[app.name][app.hash] == Cleaned(old(apps[app.name][app.hash]), blobs)
      ensures ok ==> marks == DirMarks(old(apps[app.name][app.hash]), app.hash, blobs)
    {
      var dir := apps[app.name][app.hash];
      marks := {};
      if dir.manifest.Some? {
        marks := {app.hash};
        if dir.manifest.value.body.Some? {
          var listed := MarkListed(dir.manifest.value.body.value.listed);
          marks := marks + listed;
        }
      }
      if dir.compose.None? {
        WithDirTwice(Snapshot(), app, dir, dir);
        return false, marks;
      }
      var imageMarks, left;
      ok, imageMarks, left := MarkImages(dir.images, dir.compose.value.images);
      marks := marks + imageMarks;
      SetDir(app, dir.(images := left));
    }

    /** Marking in the partly cleaned directory collects the marks of the original one. */
    static lemma MarksExtend(images: map<ImageRef, Option<IndexFile>>, blobs: Blobs, refs: set<ImageRef>, ref: ImageRef)
      ensures ImagesMarks(images, blobs, refs) + ImageMarks(CleanedImages(images, blobs, refs), blobs, ref)
              == ImagesMarks(images, blobs, refs + {ref})
    {
      var a, b := ImagesMarks(images, blobs, refs), ImageMarks(CleanedImages(images, blobs, refs), blobs, ref);
      assert b <= ImageMarks(images, blobs, ref);
      forall h | h in ImageMarks(images, blobs, ref) ensures h in a + b {
        if ref in refs {
          assert h in a;
        }
      }
    }

    static lemma RefsExtend(refs: seq<Option<ImageRef>>, i: nat)
      requires i < |refs| && refs[i].Some?
      ensures Refs(refs[..i + 1]) == Refs(refs[..i]) + {refs[i].value}
    {
      var a, b := refs[..i], refs[..i + 1];
      assert forall j | 0 <= j < i :: b[j] == a[j];
      assert b[i] == refs[i];
    }
  
    /** Removes every version of an app but the kept one, which it marks. */
    method PruneVersions(app: AppRef) returns (ok: bool, marks: set<Hash>, removed: bool)
      requires app.name in apps
      modifies this`apps
      ensures ok == !(Exists(old(Snapshot()), app) && DirAborts(old(apps[app.name][app.hash])))
      ensures app.name in apps && apps == old(apps)[app.name := apps[app.name]]
      ensures ok ==> apps[app.name] == PrunedVersions(old(apps[app.name]), Some(app.hash), blobs)
      ensures ok ==> marks == if Exists(old(Snapshot()), app)
                              then DirMarks(old(apps[app.name][app.hash]), app.hash, blobs) else {}
      ensures ok ==> removed == exists v :: v in old(apps[app.name]) && v != app.hash
      ensures Exists(old(Snapshot()), app) ==>
                && Exists(Snapshot(), app)
                && DirPartlyCleaned(old(apps[app.name][app.hash]), apps[app.name][app.hash], blobs)
    {
      marks, removed := {}, false;
      ghost var was := apps[app.name];
      var todo := apps[app.name].Keys;
      while todo != {}
        invariant app.name in apps && apps == old(apps)[app.name := apps[app.name]]
        invariant PrunedUpTo(was, app.hash, blobs, todo, apps[app.name], marks, removed)
      {
        var v :| v in todo;
        if v != app.hash {
          DropStep(was, app.hash, blobs, todo, apps[app.name], marks, removed, v);
          apps := apps[app.name := apps[app.name] - {v}];
          removed := true;
        } else {
          ok, marks := MarkVersion(app);
          if !ok {
            return;
          }
        }
        todo := todo - {v};
      }
      ok := true;
    }

    /** Where the loop over the versions of an app stands when those in `todo` are still to come. */
    static ghost predicate PrunedUpTo(was: map<Hash, AppDir>, hash: Hash, blobs: Blobs, todo: set<Hash>,
                                      versions: map<Hash, AppDir>, marks: set<Hash>, removed: bool)
    {
      && todo <= was.Keys && versions.Keys == todo + (was.Keys * {hash})
      && (forall v | v in todo :: versions[v] == was[v])
      && (if hash in was && hash !in todo then
            !DirAborts(was[hash]) && versions[hash] == Cleaned(was[hash], blobs) && marks == DirMarks(was[hash], hash, blobs)
          else marks == {})
      && (removed <==> exists v :: v in was && v !in todo && v != hash)
    }

    static lemma DropStep(was: map<Hash, AppDir>, hash: Hash, blobs: Blobs, todo: set<Hash>, versions: map<Hash, AppDir>,
                          marks: set<Hash>, removed: bool, v: Hash)
      requires PrunedUpTo(was, hash, blobs, todo, versions, marks, removed) && v in todo && v != hash
      ensures PrunedUpTo(was, hash, blobs, todo - {v}, versions - {v}, marks, true)
    {
    }

    /** One entry of the apps directory. */
    method VisitApp(name: string, keep: Shortlist) returns (ok: bool, marks: set<Hash>, removed: bool)
      requires name in apps
      modifies this`apps
      ensures ok <==> !NameAborts(old(Snapshot()), keep, name)
      ensures apps == if name in keep && name in apps then old(apps)[name := apps[name]] else old(apps) - {name}
      ensures name in apps <==> name in keep
      ensures ok && name in keep ==> apps[name] == PrunedVersions(old(apps[name]), keep[name], blobs)
      ensures ok ==> marks == MarkedBy(old(Snapshot()), keep, {name})
      ensures ok ==> (removed <==> NameLosesDir(old(Snapshot()), keep, name))
      ensures Kept(old(Snapshot()), keep, name) ==>
                && keep[name].value in apps[name]
                && DirPartlyCleaned(KeptDir(old(Snapshot()), keep, name), apps[name][keep[name].value], blobs)
    {
      ghost var s := Snapshot();
      if name !in keep {
        apps := apps - {name};
        return true, {}, true;
      }
      if keep[name].None? {
        assert apps[name := apps[name]] == apps;
        return false, {}, false;
      }
      ok, marks, removed := PruneVersions(AppRef(name, keep[name].value));
    }

    /** Where the mark phase stands when the entries in `todo` are still to come. */
    static ghost predicate MarkedUpTo(s: Store, keep: Shortlist, todo: set<string>, apps: map<string, map<Hash, AppDir>>,
                                      marks: set<Hash>, removed: bool)
    {
      && todo <= s.apps.Keys
      && apps.Keys == todo + (s.apps.Keys * keep.Keys)
      && (forall name | name in todo :: apps[name] == s.apps[name])
      && (forall name | name in s.apps && name !in todo && name in keep ::
            !NameAborts(s, keep, name) && apps[name] == PrunedVersions(s.apps[name], keep[name], s.blobs))
      && marks == MarkedBy(s, keep, s.apps.Keys - todo)
      && (removed <==> exists name :: name in s.apps && name !in todo && NameLosesDir(s, keep, name))
    }

    static lemma MarkStep(s: Store, keep: Shortlist, todo: set<string>, name: string,
                          apps: map<string, map<Hash, AppDir>>, marks: set<Hash>, removed: bool,
                          apps': map<string, map<Hash, AppDir>>)
      requires name in todo && MarkedUpTo(s, keep, todo, apps, marks, removed)
      requires !NameAborts(s, keep, name)
      requires name in keep <==> name in apps'
      requires apps' == if name in apps' then apps[name := apps'[name]] else apps - {name}
      requires name in keep ==> apps'[name] == PrunedVersions(s.apps[name], keep[name], s.blobs)
      ensures MarkedUpTo(s, keep, todo - {name}, apps', marks + MarkedBy(s, keep, {name}),
                         removed || NameLosesDir(s, keep, name))
    {
      assert s.apps.Keys - (todo - {name}) == (s.apps.Keys - todo) + {name};
      MarkedExtend(s, keep, s.apps.Keys - todo, name);
    }

    static lemma PartlyPrunedStep(s: Store, keep: Shortlist, name: string,
                                  apps: map<string, map<Hash, AppDir>>, apps': map<string, map<Hash, AppDir>>)
      requires AppsPartlyPruned(s, apps, keep)
      requires name in keep <==> name in apps'
      requires apps' == if name in apps' then apps[name := apps'[name]] else apps - {name}
      requires Kept(s, keep, name) ==>
                 && keep[name].value in apps'[name]
                 && DirPartlyCleaned(KeptDir(s, keep, name), apps'[name][keep[name].value], s.blobs)
      ensures AppsPartlyPruned(s, apps', keep)
    {
    }

    /** The mark phase, which also removes directories. It throws at the first entry it cannot read. */
    method Mark(keep: Shortlist) returns (ok: bool, marks: set<Hash>, removed: bool)
      modifies this`apps
      ensures ok <==> !Aborts(old(Snapshot()), keep)
      ensures ok ==> apps == PrunedApps(old(Snapshot()), keep) && marks == Marked(old(Snapshot()), keep)
      ensures ok ==> (removed <==> exists name :: name in old(apps) && NameLosesDir(old(Snapshot()), keep, name))
      ensures AppsPartlyPruned(old(Snapshot()), apps, keep)
    {
      ghost var s := Snapshot();
      var todo := apps.Keys;
      marks, removed := {}, false;
      while todo != {}
        invariant MarkedUpTo(s, keep, todo, apps, marks, removed)
        invariant AppsPartlyPruned(s, apps, keep)
      {
        var name :| name in todo;
        ghost var now := Snapshot();
        SameVersions(s, now, keep, name);
        var m, lost;
        ok, m, lost := VisitApp(name, keep);
        PartlyPrunedStep(s, keep, name, now.apps, apps);
        if !ok {
          return;
        }
        MarkStep(s, keep, todo, name, now.apps, marks, removed, apps);
        todo, marks, removed := todo - {name}, marks + m, removed || lost;
      }
      MarkDone(s, keep, apps, marks, removed);
      ok := true;
    }

    static lemma MarkDone(s: Store, keep: Shortlist, apps: map<string, map<Hash, AppDir>>, marks: set<Hash>, removed: bool)
      requires MarkedUpTo(s, keep, {}, apps, marks, removed)
      ensures !Aborts(s, keep) && apps == PrunedApps(s, keep) && marks == Marked(s, keep)
      ensures removed <==> exists name :: name in s.apps && NameLosesDir(s, keep, name)
    {
      assert s.apps.Keys - {} == s.apps.Keys;
    }

    method SweepBlobs(marks: set<Hash>) returns (removed: bool)
      modifies this`blobs
      ensures blobs == Sweep(old(blobs), marks)
      ensures removed <==> exists h :: h in old(blobs) && h !in marks
    {
      ghost var was := blobs;
      var left := blobs.Keys;
      removed := false;
      while left != {}
        invariant left <= was.Keys
        invariant blobs.Keys == left + (was.Keys * marks)
        invariant forall h | h in blobs :: blobs[h] == was[h]
        invariant removed <==> exists h :: h in was && h !in left && h !in marks
      {
        var h :| h in left;
        left := left - {h};
        if h !in marks {
          blobs := blobs - {h};
          removed := true;
        }
      }
    }

    /** Drops the apps and versions that are not shortlisted, and the blobs that nothing shortlisted leads to. */
    method Prune(keep: Shortlist) returns (r: PruneResult)
      modifies this`apps, this`blobs
      ensures r.Aborted? <==> Aborts(old(Snapshot()), keep)
      ensures r.Done? ==> Snapshot() == Pruned(old(Snapshot()), keep)
      ensures r.Done? ==> (r.dockerPruned <==> DockerPruneDue(old(Snapshot()), keep))
      ensures r.Aborted? ==> blobs == old(blobs)
      ensures AppsPartlyPruned(old(Snapshot()), apps, keep)
      ensures forall app: AppRef | app.name in keep && keep[app.name] == Some(app.hash)
                                   && IsFetched(old(Snapshot()), app) && ComposeIsArchived(old(Snapshot()), app)
                :: IsFetched(Snapshot(), app)
    {
      ghost var s := Snapshot();
      var ok, marks, removed := Mark(keep);
      if !ok {
        StoppedSafely(s, Snapshot(), keep);
        return Aborted;
      }
      LosesDirMeans(s, keep);
      if !hasBlobsDir {
        StoppedSafely(s, Snapshot(), keep);
        return Done(false);
      }
      var swept := SweepBlobs(marks);
      StoppedSafely(s, Snapshot(), keep);
      return Done(removed || swept);
    }

    /** `prune` removes the directory of the app or of one of its versions. */
    static predicate NameLosesDir(s: Store, keep: Shortlist, name: string)
      requires name in s.apps
    {
      name in keep ==> exists v :: v in s.apps[name] && keep[name] != Some(v)
    }

    static lemma LosesDirMeans(s: Store, keep: Shortlist)
      ensures (exists name :: name in s.apps && NameLosesDir(s, keep, name)) <==>
                || (exists name :: name in s.apps && name !in keep)
                || (exists name, v :: name in s.apps && name in keep && v in s.apps[name] && keep[name] != Some(v))
    {
      if name, v :| name in s.apps && name in keep && v in s.apps[name] && keep[name] != Some(v) {
        assert NameLosesDir(s, keep, name);
      } else if name :| name in s.apps && name !in keep {
        assert NameLosesDir(s, keep, name);
      }
    }

    static lemma MarkedExtend(s: Store, keep: Shortlist, names: set<string>, name: string)
      ensures MarkedBy(s, keep, names + {name}) == MarkedBy(s, keep, names) + MarkedBy(s, keep, {name})
    {
    }

    /** What a visit does depends on the versions of that app alone. */
    static lemma SameVersions(s: Store, s': Store, keep: Shortlist, name: string)
      requires name in s.apps && name in s'.apps && s.apps[name] == s'.apps[name] && s.blobs == s'.blobs
      ensures NameAborts(s, keep, name) == NameAborts(s', keep, name)
      ensures NameLosesDir(s, keep, name) == NameLosesDir(s', keep, name)
      ensures MarkedBy(s, keep, {name}) == MarkedBy(s', keep, {name})
      ensures Kept(s, keep, name) == Kept(s', keep, name)
      ensures Kept(s, keep, name) ==> KeptDir(s, keep, name) == KeptDir(s', keep, name)
    {
    }

    static lemma StoppedSafely(s: Store, s': Store, keep: Shortlist)
      requires AppsPartlyPruned(s, s'.apps, keep)
      requires forall h | h in s.blobs && h in Marked(s, keep) :: h in s'.blobs && s'.blobs[h] == s.blobs[h]
      ensures forall app: AppRef | app.name in keep && keep[app.name] == Some(app.hash)
                           && IsFetched(s, app) && ComposeIsArchived(s, app)
                :: IsFetched(s', app)
    {
      forall app: AppRef | app.name in keep && keep[app.name] == Some(app.hash)
                   && IsFetched(s, app) && ComposeIsArchived(s, app)
        ensures IsFetched(s', app)
      {
        PruneSafety(s, s', keep, app);
      }
    }
  }
}
