/**
 The content-addressed store of `Docker::RestorableAppEngine`
 (src/docker/restorableappengine.cc): app version directories, the image indexes
 inside them, and the shared directory of blobs they refer to.

 File contents are represented by what the engine can observe of them: the hash of
 the bytes, their number, and what parsing them yields.  `None` stands for a value
 whose reading makes the engine throw.
 */
module AppStore {
  import opened Basics

  /** `image` of one service of a compose file; it names `images/<host>/<repo>/<digest>`. */
  datatype ImageRef = ImageRef(host: string, repo: string, digest: Hash)

  /** A parsed docker-compose.yml: the image of every service, `None` if it is not a pinned URI. */
  datatype Compose = Compose(images: seq<Option<ImageRef>>)

  datatype SizeField = Size(bytes: int) | NoSize | BadSize

  /** One element of `layers` of an image manifest. */
  datatype LayerEntry = Entry(digest: Option<Hash>, size: SizeField) | NotALayer

  datatype ImageManifest = ImageManifest(config: Option<Hash>, layers: seq<LayerEntry>)

  /** A file of blobs/sha256; `manifest` is what parsing it as an image manifest gives. */
  datatype File = File(hash: Hash, size: nat, manifest: ImageManifest)

  datatype IndexFile = NotAnIndex | BadDigest | Index(manifest: Hash)

  /** manifest.json of an app: its archive, and the digests under `manifests` and `layers` in order. */
  datatype AppManifest = AppManifest(archive: Option<Hash>, listed: seq<Option<Hash>>)
  datatype ManifestFile = ManifestFile(hash: Hash, body: Option<AppManifest>)

  /** `<name>.tgz`; `compose` is `None` if tar fails, `Some(None)` if the extracted text is not YAML. */
  datatype Archive = Archive(hash: Hash, compose: Option<Option<Compose>>)

  /** An app version directory. `images` maps an image directory to its index.json, if it has one. */
  datatype AppDir = AppDir(
    manifest: Option<ManifestFile>,
    archives: map<Hash, Archive>,
    compose: Option<Compose>,
    images: map<ImageRef, Option<IndexFile>>)

  type Blobs = map<Hash, File>

  datatype Store = Store(apps: map<string, map<Hash, AppDir>>, blobs: Blobs, hasBlobsDir: bool)

  /** An app as the store looks it up: `apps/<name>/<hash>`. */
  datatype AppRef = AppRef(name: string, hash: Hash)

  /** The apps to keep: name to version, `None` if the URI of the app does not parse. */
  type Shortlist = map<string, Option<Hash>>

  // ---------------------------------------------------------------------------
  // What it means for an app to be fetched
  // ---------------------------------------------------------------------------

  // file_size() is unsigned and is compared with a signed number from JSON.
  predicate LayerPresent(blobs: Blobs, layer: LayerEntry) {
    && layer.Entry? && layer.digest.Some? && layer.size.Size?
    && layer.digest.value in blobs
    && blobs[layer.digest.value].size == ToUnsigned(layer.size.bytes)
  }

  predicate ManifestPresent(blobs: Blobs, digest: Hash) {
    && digest in blobs && blobs[digest].hash == digest
    && var m := blobs[digest].manifest;
    && m.config.Some? && m.config.value in blobs && blobs[m.config.value].hash == m.config.value
    && forall i | 0 <= i < |m.layers| :: LayerPresent(blobs, m.layers[i])
  }

  predicate HasIndex(images: map<ImageRef, Option<IndexFile>>, ref: ImageRef) {
    ref in images && images[ref].Some? && images[ref].value.Index?
  }

  predicate ImageFetched(images: map<ImageRef, Option<IndexFile>>, blobs: Blobs, ref: ImageRef) {
    HasIndex(images, ref) && ManifestPresent(blobs, images[ref].value.manifest)
  }

  predicate Exists(s: Store, app: AppRef) {
    app.name in s.apps && app.hash in s.apps[app.name]
  }

  /** The archive is the one the manifest names, the manifest the one the URI names. */
  predicate BundleFetched(dir: AppDir, hash: Hash) {
    && dir.manifest.Some? && dir.manifest.value.hash == hash
    && dir.manifest.value.body.Some?
    && var archive := dir.manifest.value.body.value.archive;
    && archive.Some? && archive.value in dir.archives
    && dir.archives[archive.value].hash == archive.value
    && dir.archives[archive.value].compose.Some?
  }

  /** The compose text inside the verified archive, `None` if it is not YAML. */
  function ArchivedCompose(dir: AppDir, hash: Hash): Option<Compose>
    requires BundleFetched(dir, hash)
  {
    dir.archives[dir.manifest.value.body.value.archive.value].compose.value
  }

  predicate DirFetched(dir: AppDir, hash: Hash, blobs: Blobs) {
    && BundleFetched(dir, hash)
    && ArchivedCompose(dir, hash).Some?
    && var images := ArchivedCompose(dir, hash).value.images;
    && forall i | 0 <= i < |images| :: images[i].Some? && ImageFetched(dir.images, blobs, images[i].value)
  }

  /** The app and every blob of its images are completely in the store. */
  predicate IsFetched(s: Store, app: AppRef) {
    Exists(s, app) && DirFetched(s.apps[app.name][app.hash], app.hash, s.blobs)
  }

  /** The stored docker-compose.yml is the one in the archive. */
  predicate ComposeIsArchived(s: Store, app: AppRef) {
    && Exists(s, app)
    && var dir := s.apps[app.name][app.hash];
    && BundleFetched(dir, app.hash) && dir.compose == ArchivedCompose(dir, app.hash)
  }

  // ---------------------------------------------------------------------------
  // Mark and sweep
  // ---------------------------------------------------------------------------

  /** Digests are collected until one of them cannot be read. */
  function ListedMarks(listed: seq<Option<Hash>>): set<Hash> {
    if listed == [] || listed[0].None? then {} else {listed[0].value} + ListedMarks(listed[1..])
  }

  function ManifestMarks(dir: AppDir, hash: Hash): set<Hash> {
    if dir.manifest.None? then {}
    else {hash} + (if dir.manifest.value.body.Some? then ListedMarks(dir.manifest.value.body.value.listed) else {})
  }

  function LayerMarks(layers: seq<LayerEntry>): set<Hash> {
    if layers == [] then {}
    else if layers[0].NotALayer? then LayerMarks(layers[1..])
    else if layers[0].digest.None? then {}
    else {layers[0].digest.value} + LayerMarks(layers[1..])
  }

  /** Every layer that has a digest has a readable one. */
  predicate LayersReadable(layers: seq<LayerEntry>) {
    forall i | 0 <= i < |layers| :: layers[i].Entry? ==> layers[i].digest.Some?
  }

  predicate ManifestReadable(blobs: Blobs, digest: Hash) {
    && digest in blobs && blobs[digest].manifest.config.Some?
    && LayersReadable(blobs[digest].manifest.layers)
  }

  /** The image directory has an index that leads to a manifest whose digests are all readable. */
  predicate ImageReadable(images: map<ImageRef, Option<IndexFile>>, blobs: Blobs, ref: ImageRef) {
    HasIndex(images, ref) && ManifestReadable(blobs, images[ref].value.manifest)
  }

  function BlobMarks(blobs: Blobs, digest: Hash): set<Hash> {
    if digest !in blobs || blobs[digest].manifest.config.None? then {digest}
    else {digest, blobs[digest].manifest.config.value} + LayerMarks(blobs[digest].manifest.layers)
  }

  function ImageMarks(images: map<ImageRef, Option<IndexFile>>, blobs: Blobs, ref: ImageRef): set<Hash> {
    {ref.digest} + if HasIndex(images, ref) then BlobMarks(blobs, images[ref].value.manifest) else {}
  }

  function ImagesMarks(images: map<ImageRef, Option<IndexFile>>, blobs: Blobs, refs: set<ImageRef>): set<Hash> {
    set ref, h | ref in refs && h in ImageMarks(images, blobs, ref) :: h
  }

  function Refs(images: seq<Option<ImageRef>>): set<ImageRef> {
    set i | 0 <= i < |images| && images[i].Some? :: images[i].value
  }

  function DirRefs(dir: AppDir): set<ImageRef> {
    if dir.compose.Some? then Refs(dir.compose.value.images) else {}
  }

  function DirMarks(dir: AppDir, hash: Hash, blobs: Blobs): set<Hash> {
    ManifestMarks(dir, hash) + ImagesMarks(dir.images, blobs, DirRefs(dir))
  }

  /** The shortlisted version of app `name` has a directory. */
  predicate Kept(s: Store, keep: Shortlist, name: string) {
    && name in s.apps && name in keep && keep[name].Some?
    && keep[name].value in s.apps[name]
  }

  function KeptDir(s: Store, keep: Shortlist, name: string): AppDir
    requires Kept(s, keep, name)
  {
    s.apps[name][keep[name].value]
  }

  /** Every blob that a shortlisted app leads to. */
  function Marked(s: Store, keep: Shortlist): set<Hash> {
    MarkedBy(s, keep, s.apps.Keys)
  }

  function MarkedBy(s: Store, keep: Shortlist, names: set<string>): set<Hash> {
    set name, h | name in names && Kept(s, keep, name)
                  && h in DirMarks(KeptDir(s, keep, name), keep[name].value, s.blobs) :: h
  }

  function CleanedImages(images: map<ImageRef, Option<IndexFile>>, blobs: Blobs, refs: set<ImageRef>)
    : map<ImageRef, Option<IndexFile>>
  {
    map ref | ref in images && (ref in refs ==> ImageReadable(images, blobs, ref)) :: images[ref]
  }

  /** `dir` without the image directories of its services that cannot be read. */
  function Cleaned(dir: AppDir, blobs: Blobs): AppDir {
    dir.(images := CleanedImages(dir.images, blobs, DirRefs(dir)))
  }

  function PrunedVersions(versions: map<Hash, AppDir>, keep: Option<Hash>, blobs: Blobs): map<Hash, AppDir> {
    map v | v in versions && keep == Some(v) :: Cleaned(versions[v], blobs)
  }

  function PrunedApps(s: Store, keep: Shortlist): map<string, map<Hash, AppDir>> {
    map name | name in s.apps && name in keep :: PrunedVersions(s.apps[name], keep[name], s.blobs)
  }

  function Sweep(blobs: Blobs, marked: set<Hash>): Blobs {
    map h | h in blobs && h in marked :: blobs[h]
  }

  /** The store that `prune` leaves when it runs to its end. */
  function Pruned(s: Store, keep: Shortlist): Store {
    Store(PrunedApps(s, keep), if s.hasBlobsDir then Sweep(s.blobs, Marked(s, keep)) else s.blobs, s.hasBlobsDir)
  }

  /** Something was removed, other than image directories, and the early return was not taken. */
  predicate DockerPruneDue(s: Store, keep: Shortlist) {
    && s.hasBlobsDir
    && (|| (exists name :: name in s.apps && name !in keep)
        || (exists name, v :: name in s.apps && name in keep && v in s.apps[name] && keep[name] != Some(v))
        || (exists h :: h in s.blobs && h !in Marked(s, keep)))
  }

  predicate DirAborts(dir: AppDir) {
    dir.compose.None? || exists i :: 0 <= i < |dir.compose.value.images| && dir.compose.value.images[i].None?
  }

  /** The mark phase throws on this app directory. */
  predicate NameAborts(s: Store, keep: Shortlist, name: string) {
    && name in s.apps && name in keep
    && (keep[name].None? || (Kept(s, keep, name) && DirAborts(KeptDir(s, keep, name))))
  }

  predicate Aborts(s: Store, keep: Shortlist) {
    exists name :: name in s.apps && NameAborts(s, keep, name)
  }

  // ---------------------------------------------------------------------------
  // Prune safety
  // ---------------------------------------------------------------------------

  /** What a run of `prune` may have done to a kept version directory when it stops at any point. */
  ghost predicate DirPartlyCleaned(dir: AppDir, dir': AppDir, blobs: Blobs) {
    && dir' == dir.(images := dir'.images)
    && dir'.images.Keys <= dir.images.Keys
    && (forall ref | ref in dir'.images :: dir'.images[ref] == dir.images[ref])
    && (forall ref | ref in dir.images && ImageReadable(dir.images, blobs, ref) :: ref in dir'.images)
  }

  /** What a run of `prune` may have done to the app directories when it stops at any point. */
  ghost predicate AppsPartlyPruned(s: Store, apps: map<string, map<Hash, AppDir>>, keep: Shortlist) {
    forall name | Kept(s, keep, name) ::
      && name in apps && keep[name].value in apps[name]
      && DirPartlyCleaned(KeptDir(s, keep, name), apps[name][keep[name].value], s.blobs)
  }

  lemma {:induction false} LayerMarksCover(blobs: Blobs, layers: seq<LayerEntry>)
    requires forall i | 0 <= i < |layers| :: LayerPresent(blobs, layers[i])
    ensures LayersReadable(layers)
    ensures forall i | 0 <= i < |layers| ::
              layers[i].Entry? && layers[i].digest.Some? && layers[i].digest.value in LayerMarks(layers)
  {
    if layers != [] {
      LayerMarksCover(blobs, layers[1..]);
      forall i | 0 <= i < |layers| ensures layers[i].digest.value in LayerMarks(layers) {
        if i > 0 {
          assert layers[i] == layers[1..][i - 1];
        }
      }
    }
  }

  /** A present image survives any sweep that keeps its marks. */
  lemma PresentAfterSweep(blobs: Blobs, blobs': Blobs, digest: Hash)
    requires ManifestPresent(blobs, digest)
    requires forall h | h in BlobMarks(blobs, digest) && h in blobs :: h in blobs' && blobs'[h] == blobs[h]
    ensures ManifestPresent(blobs', digest) && ManifestReadable(blobs, digest)
  {
    LayerMarksCover(blobs, blobs[digest].manifest.layers);
    assert digest in BlobMarks(blobs, digest);
  }

  lemma KeptDirStaysFetched(dir: AppDir, dir': AppDir, hash: Hash, blobs: Blobs, blobs': Blobs)
    requires DirFetched(dir, hash, blobs) && dir.compose == ArchivedCompose(dir, hash)
    requires DirPartlyCleaned(dir, dir', blobs)
    requires forall h | h in DirMarks(dir, hash, blobs) && h in blobs :: h in blobs' && blobs'[h] == blobs[h]
    ensures DirFetched(dir', hash, blobs') && dir'.compose == ArchivedCompose(dir', hash)
  {
    var images := ArchivedCompose(dir, hash).value.images;
    forall i | 0 <= i < |images|
      ensures images[i].Some? && ImageFetched(dir'.images, blobs', images[i].value)
    {
      var ref := images[i].value;
      var digest := dir.images[ref].value.manifest;
      assert ref in DirRefs(dir);
      forall h | h in BlobMarks(blobs, digest) ensures h in DirMarks(dir, hash, blobs) {
        assert h in ImageMarks(dir.images, blobs, ref);
      }
      PresentAfterSweep(blobs, blobs', digest);
    }
  }

  /**
   Prune safety.  Wherever a run of `prune` stops - at its end or by an exception in the
   mark phase - a shortlisted app that was completely fetched still is.
   */
  lemma PruneSafety(s: Store, s': Store, keep: Shortlist, app: AppRef)
    requires AppsPartlyPruned(s, s'.apps, keep)
    requires forall h | h in s.blobs && h in Marked(s, keep) :: h in s'.blobs && s'.blobs[h] == s.blobs[h]
    requires app.name in keep && keep[app.name] == Some(app.hash)
    requires IsFetched(s, app) && ComposeIsArchived(s, app)
    ensures IsFetched(s', app) && ComposeIsArchived(s', app)
  {
    assert Kept(s, keep, app.name);
    var dir := KeptDir(s, keep, app.name);
    forall h | h in DirMarks(dir, app.hash, s.blobs) ensures h in Marked(s, keep) {}
    KeptDirStaysFetched(dir, s'.apps[app.name][app.hash], app.hash, s.blobs, s'.blobs);
  }

  lemma PrunedIsPartlyPruned(s: Store, keep: Shortlist)
    ensures AppsPartlyPruned(s, Pruned(s, keep).apps, keep)
  {
  }

  /** In terms of the set of fetched apps, a full prune is intersection with the shortlist. */
  lemma PruneIntersects(s: Store, keep: Shortlist, app: AppRef)
    requires app.name in keep && keep[app.name] == Some(app.hash) && IsFetched(s, app) ==> ComposeIsArchived(s, app)
    ensures IsFetched(Pruned(s, keep), app) <==>
              IsFetched(s, app) && app.name in keep && keep[app.name] == Some(app.hash)
  {
    var p := Pruned(s, keep);
    if IsFetched(s, app) && app.name in keep && keep[app.name] == Some(app.hash) {
      PrunedIsPartlyPruned(s, keep);
      PruneSafety(s, p, keep, app);
    }
    if IsFetched(p, app) {
      assert app.name in keep && keep[app.name] == Some(app.hash);
      var dir, dir' := s.apps[app.name][app.hash], p.apps[app.name][app.hash];
      assert dir' == Cleaned(dir, s.blobs);
      var images := ArchivedCompose(dir, app.hash).value.images;
      forall i | 0 <= i < |images|
        ensures images[i].Some? && ImageFetched(dir.images, s.blobs, images[i].value)
      {
        assert ImageFetched(dir'.images, p.blobs, images[i].value);
      }
    }
  }

  // ---------------------------------------------------------------------------
  // Prune stability
  // ---------------------------------------------------------------------------

  /** The marks that do not come from an unreadable image. */
  function FirmMarks(s: Store, keep: Shortlist): set<Hash> {
    set name, h | name in s.apps && Kept(s, keep, name)
                  && h in DirMarks(Cleaned(KeptDir(s, keep, name), s.blobs), keep[name].value, s.blobs) :: h
  }

  /** The index of a service image exists but does not lead to a readable manifest. */
  predicate UnreadableIndex(s: Store, keep: Shortlist, name: string, ref: ImageRef) {
    && Kept(s, keep, name)
    && var dir := KeptDir(s, keep, name);
    && ref in DirRefs(dir) && HasIndex(dir.images, ref) && !ImageReadable(dir.images, s.blobs, ref)
  }

  /** A stored blob that is marked only on the way to the exception an unreadable image raises. */
  predicate Stray(s: Store, keep: Shortlist, h: Hash) {
    && h in s.blobs && h !in FirmMarks(s, keep)
    && exists name, ref :: name in s.apps && Kept(s, keep, name) && ref in DirRefs(KeptDir(s, keep, name))
                           && UnreadableIndex(s, keep, name, ref)
                           && h in BlobMarks(s.blobs, KeptDir(s, keep, name).images[ref].value.manifest)
  }

  /** Each mark is firm or raised by an unreadable index. */
  lemma MarkedSplits(s: Store, keep: Shortlist, h: Hash)
    requires h in s.blobs
    ensures h in Marked(s, keep) <==> h in FirmMarks(s, keep) || Stray(s, keep, h)
  {
    if h in FirmMarks(s, keep) {
      var name :| name in s.apps && Kept(s, keep, name)
                  && h in DirMarks(Cleaned(KeptDir(s, keep, name), s.blobs), keep[name].value, s.blobs);
      CleanedMarks(KeptDir(s, keep, name), keep[name].value, s.blobs);
    }
    if h in Marked(s, keep) && h !in FirmMarks(s, keep) {
      var name :| name in s.apps && Kept(s, keep, name)
                  && h in DirMarks(KeptDir(s, keep, name), keep[name].value, s.blobs);
      var dir, hash := KeptDir(s, keep, name), keep[name].value;
      var c := Cleaned(dir, s.blobs);
      assert h !in DirMarks(c, hash, s.blobs);
      assert ManifestMarks(c, hash) == ManifestMarks(dir, hash);
      var ref :| ref in DirRefs(dir) && h in ImageMarks(dir.images, s.blobs, ref);
      assert h !in ImageMarks(c.images, s.blobs, ref);
      assert UnreadableIndex(s, keep, name, ref);
    }
    if Stray(s, keep, h) {
      var name, ref :| name in s.apps && Kept(s, keep, name) && ref in DirRefs(KeptDir(s, keep, name))
                       && UnreadableIndex(s, keep, name, ref)
                       && h in BlobMarks(s.blobs, KeptDir(s, keep, name).images[ref].value.manifest);
      var dir := KeptDir(s, keep, name);
      assert h in ImageMarks(dir.images, s.blobs, ref);
      assert h in DirMarks(dir, keep[name].value, s.blobs);
    }
  }

  lemma CleanedMarks(dir: AppDir, hash: Hash, blobs: Blobs)
    ensures DirMarks(Cleaned(dir, blobs), hash, blobs) <= DirMarks(dir, hash, blobs)
  {
    var c := Cleaned(dir, blobs);
    forall ref, h | ref in DirRefs(c) && h in ImageMarks(c.images, blobs, ref)
      ensures h in ImageMarks(dir.images, blobs, ref)
    {
    }
  }

  /** A sweep that keeps the marks of a cleaned directory changes neither its marks nor its images. */
  lemma CleanedDirIsSettled(dir: AppDir, hash: Hash, blobs: Blobs, blobs': Blobs)
    requires forall h | h in DirMarks(dir, hash, blobs) && h in blobs :: h in blobs' && blobs'[h] == blobs[h]
    ensures var c := Cleaned(dir, blobs);
            DirMarks(c, hash, blobs') == DirMarks(c, hash, blobs) && Cleaned(c, blobs') == c
  {
    var c := Cleaned(dir, blobs);
    forall ref | ref in DirRefs(c)
      ensures ImageMarks(c.images, blobs', ref) == ImageMarks(c.images, blobs, ref)
      ensures HasIndex(c.images, ref) ==> ImageReadable(c.images, blobs', ref)
    {
      if HasIndex(c.images, ref) {
        var m := c.images[ref].value.manifest;
        assert m in BlobMarks(blobs, m);
        assert m in ImageMarks(dir.images, blobs, ref);
        assert m in DirMarks(dir, hash, blobs);
      }
    }
    assert ImagesMarks(c.images, blobs', DirRefs(c)) == ImagesMarks(c.images, blobs, DirRefs(c));
    assert Cleaned(c, blobs').images == c.images;
  }

  /** A kept directory after the first pass: cleaned, and settled. */
  lemma SecondPassOf(s: Store, keep: Shortlist, name: string)
    ensures var p := Pruned(s, keep);
            && (Kept(p, keep, name) <==> Kept(s, keep, name))
            && (Kept(s, keep, name) ==>
                  var c := Cleaned(KeptDir(s, keep, name), s.blobs);
                  && KeptDir(p, keep, name) == c == Cleaned(c, p.blobs)
                  && DirMarks(c, keep[name].value, p.blobs) == DirMarks(c, keep[name].value, s.blobs))
  {
    if Kept(s, keep, name) {
      forall h | h in DirMarks(KeptDir(s, keep, name), keep[name].value, s.blobs) ensures h in Marked(s, keep) {}
      CleanedDirIsSettled(KeptDir(s, keep, name), keep[name].value, s.blobs, Pruned(s, keep).blobs);
    }
  }

  lemma SecondPassApps(s: Store, keep: Shortlist)
    ensures PrunedApps(Pruned(s, keep), keep) == Pruned(s, keep).apps
  {
    var p := Pruned(s, keep);
    forall name | name in p.apps
      ensures PrunedVersions(p.apps[name], keep[name], p.blobs) == p.apps[name]
    {
      SecondPassOf(s, keep, name);
      assert Kept(s, keep, name) ==> p.apps[name][keep[name].value] == KeptDir(p, keep, name);
    }
  }

  /** The second pass marks exactly what the first pass marked firmly, and leaves the directories alone. */
  lemma SecondPass(s: Store, keep: Shortlist)
    ensures var p := Pruned(s, keep);
            Marked(p, keep) == FirmMarks(s, keep) && FirmMarks(p, keep) == FirmMarks(s, keep)
            && PrunedApps(p, keep) == p.apps
  {
    var p := Pruned(s, keep);
    forall name
      ensures Kept(p, keep, name) <==> Kept(s, keep, name)
      ensures Kept(s, keep, name) ==>
                var c := Cleaned(KeptDir(s, keep, name), s.blobs);
                && KeptDir(p, keep, name) == c == Cleaned(c, p.blobs)
                && DirMarks(c, keep[name].value, p.blobs) == DirMarks(c, keep[name].value, s.blobs)
    {
      SecondPassOf(s, keep, name);
    }
    SecondPassApps(s, keep);
  }

  /** After one pass only blobs can be left to remove. */
  lemma OnlyBlobsLeft(s: Store, keep: Shortlist)
    ensures DockerPruneDue(Pruned(s, keep), keep) <==>
              s.hasBlobsDir && exists h :: h in Pruned(s, keep).blobs && h !in FirmMarks(s, keep)
  {
    SecondPass(s, keep);
  }

  lemma SweepKeepsAll(blobs: Blobs, marked: set<Hash>)
    ensures Sweep(blobs, marked) == blobs <==> forall h | h in blobs :: h in marked
  {
    if h :| h in blobs && h !in marked {
      assert h !in Sweep(blobs, marked);
    } else {
      assert Sweep(blobs, marked).Keys == blobs.Keys;
    }
  }

  /** The store after the second pass. */
  lemma SecondPrune(s: Store, keep: Shortlist)
    ensures var p := Pruned(s, keep);
            Pruned(p, keep) ==
            p.(blobs := if s.hasBlobsDir then Sweep(p.blobs, FirmMarks(s, keep)) else p.blobs)
  {
    SecondPass(s, keep);
  }

  lemma SettledIff(s: Store, keep: Shortlist)
    ensures Pruned(Pruned(s, keep), keep) == Pruned(s, keep) <==>
              (s.hasBlobsDir ==> forall h | h in Pruned(s, keep).blobs :: h in FirmMarks(s, keep))
  {
    SecondPrune(s, keep);
    SweepKeepsAll(Pruned(s, keep).blobs, FirmMarks(s, keep));
  }

  /** A pass that ran to its end is followed by passes that do. */
  lemma PassesDoNotAbort(s: Store, keep: Shortlist)
    requires !Aborts(s, keep)
    ensures !Aborts(Pruned(s, keep), keep)
  {
    var p := Pruned(s, keep);
    forall name | name in p.apps ensures !NameAborts(p, keep, name) {
      SecondPassOf(s, keep, name);
      assert !NameAborts(s, keep, name);
    }
  }

  /**
   Stability of prune.  Pruning twice with the same shortlist is pruning once, and the second
   run does not ask docker to prune, exactly when no stored blob is stray.
   */
  lemma PruneStableIff(s: Store, keep: Shortlist)
    ensures Pruned(Pruned(s, keep), keep) == Pruned(s, keep) && !DockerPruneDue(Pruned(s, keep), keep)
            <==> (s.hasBlobsDir ==> forall h | h in s.blobs :: !Stray(s, keep, h))
    ensures !Aborts(s, keep) ==> !Aborts(Pruned(s, keep), keep)
  {
    if !Aborts(s, keep) {
      PassesDoNotAbort(s, keep);
    }
    OnlyBlobsLeft(s, keep);
    SettledIff(s, keep);
    forall h | h in s.blobs
      ensures h in Marked(s, keep) <==> h in FirmMarks(s, keep) || Stray(s, keep, h)
    {
      MarkedSplits(s, keep, h);
    }
  }

  /** If every existing image index leads to a readable manifest then one pass is enough. */
  lemma ReadableStoreIsStable(s: Store, keep: Shortlist)
    requires forall name, ref :: !UnreadableIndex(s, keep, name, ref)
    ensures Pruned(Pruned(s, keep), keep) == Pruned(s, keep) && !DockerPruneDue(Pruned(s, keep), keep)
    ensures !Aborts(s, keep) ==> !Aborts(Pruned(s, keep), keep)
  {
    PruneStableIff(s, keep);
  }

  /** Whatever is in the store, a third pass has nothing left to do. */
  lemma TwoPassesSettle(s: Store, keep: Shortlist)
    ensures var p := Pruned(Pruned(s, keep), keep);
            Pruned(p, keep) == p && !DockerPruneDue(p, keep)
    ensures !Aborts(s, keep) ==> !Aborts(Pruned(s, keep), keep) && !Aborts(Pruned(Pruned(s, keep), keep), keep)
  {
    if !Aborts(s, keep) {
      PassesDoNotAbort(s, keep);
      PassesDoNotAbort(Pruned(s, keep), keep);
    }
    var p := Pruned(s, keep);
    SecondPass(s, keep);
    forall h | h in p.blobs ensures !Stray(p, keep, h) {
      MarkedSplits(p, keep, h);
    }
    PruneStableIff(p, keep);
  }

  /** A store whose only app leads to one manifest that cannot be read. */
  function StrayStore(): Store {
    var ref := ImageRef("r", "i", "image");
    Store(map["app" := map["v" := AppDir(None, map[], Some(Compose([Some(ref)])), map[ref := Some(Index("bad"))])]],
          map["bad" := File("bad", 1, ImageManifest(None, []))], true)
  }

  lemma StrayMarks(s: Store, keep: Shortlist)
    requires s == StrayStore() && keep == map["app" := Some("v")]
    ensures Stray(s, keep, "bad") && "bad" !in FirmMarks(s, keep)
  {
    var ref := ImageRef("r", "i", "image");
    var dir := s.apps["app"]["v"];
    assert Kept(s, keep, "app") && KeptDir(s, keep, "app") == dir;
    assert dir.compose.value.images[0] == Some(ref);
    assert DirRefs(dir) == {ref};
    assert UnreadableIndex(s, keep, "app", ref);
    assert "bad" in BlobMarks(s.blobs, "bad");
  }

  /** The manifest stays for a pass, and the pass after that removes it. */
  lemma StrayExample(s: Store, keep: Shortlist)
    requires s == StrayStore() && keep == map["app" := Some("v")]
    ensures Pruned(Pruned(s, keep), keep) != Pruned(s, keep) && DockerPruneDue(Pruned(s, keep), keep)
  {
    StrayMarks(s, keep);
    MarkedSplits(s, keep, "bad");
    assert "bad" in Pruned(s, keep).blobs;
    SettledIff(s, keep);
    OnlyBlobsLeft(s, keep);
  }

  // ---------------------------------------------------------------------------
  // Asking whether an app is fetched
  // ---------------------------------------------------------------------------

  /** What the check deletes before it answers no. */
  datatype Repair = NoRepair | DropIndex(ref: ImageRef) | DropImage(ref: ImageRef) | DropBlob(digest: Hash)

  datatype Verdict = Verdict(fetched: bool, repair: Repair)

  const MISSING := Verdict(false, NoRepair)

  /** The layers are looked at in order; the first that is not as declared decides. */
  function LayersVerdict(blobs: Blobs, layers: seq<LayerEntry>, ref: ImageRef): Verdict {
    if layers == [] then Verdict(true, NoRepair)
    else match layers[0]
      case NotALayer => MISSING
      case Entry(digest, size) =>
        if size.NoSize? then MISSING
        else if digest.None? || size.BadSize? then Verdict(false, DropImage(ref))
        else if digest.value !in blobs then MISSING
        else if blobs[digest.value].size != ToUnsigned(size.bytes) then Verdict(false, DropBlob(digest.value))
        else LayersVerdict(blobs, layers[1..], ref)
  }

  function ManifestVerdict(blobs: Blobs, digest: Hash, ref: ImageRef): Verdict {
    if digest !in blobs || blobs[digest].hash != digest then MISSING
    else
      var m := blobs[digest].manifest;
      if m.config.None? then Verdict(false, DropImage(ref))
      else if m.config.value !in blobs || blobs[m.config.value].hash != m.config.value then MISSING
      else LayersVerdict(blobs, m.layers, ref)
  }

  function ImageVerdict(images: map<ImageRef, Option<IndexFile>>, blobs: Blobs, ref: ImageRef): Verdict {
    if ref !in images || images[ref].None? then MISSING
    else match images[ref].value
      case NotAnIndex => Verdict(false, DropIndex(ref))
      case BadDigest => Verdict(false, DropImage(ref))
      case Index(digest) => ManifestVerdict(blobs, digest, ref)
  }

  function ImagesVerdict(images: map<ImageRef, Option<IndexFile>>, blobs: Blobs, refs: seq<Option<ImageRef>>): Verdict {
    if refs == [] then Verdict(true, NoRepair)
    else if refs[0].None? then MISSING
    else
      var v := ImageVerdict(images, blobs, refs[0].value);
      if v.fetched then ImagesVerdict(images, blobs, refs[1..]) else v
  }

  function AppVerdict(s: Store, app: AppRef): Verdict {
    if !Exists(s, app) || !BundleFetched(s.apps[app.name][app.hash], app.hash) then MISSING
    else
      var dir := s.apps[app.name][app.hash];
      var compose := ArchivedCompose(dir, app.hash);
      if compose.None? then MISSING else ImagesVerdict(dir.images, s.blobs, compose.value.images)
  }

  /** The manifest is the wanted one, but it, the archive it names or the compose file in there cannot be read. */
  predicate Unreadable(dir: AppDir, hash: Hash) {
    && dir.manifest.Some? && dir.manifest.value.hash == hash
    && (dir.manifest.value.body.None?
        || dir.manifest.value.body.value.archive.None?
        || var archive := dir.manifest.value.body.value.archive.value;
           && archive in dir.archives && dir.archives[archive].hash == archive
           && dir.archives[archive].compose in {None, Some(None)})
  }

  predicate FetchedBefore(images: map<ImageRef, Option<IndexFile>>, blobs: Blobs, refs: seq<Option<ImageRef>>, i: int)
    requires 0 <= i <= |refs|
  {
    forall k | 0 <= k < i :: refs[k].Some? && ImageFetched(images, blobs, refs[k].value)
  }

  /** An image that is not a pinned URI comes before any that is not fetched. */
  predicate ImagesThrow(images: map<ImageRef, Option<IndexFile>>, blobs: Blobs, refs: seq<Option<ImageRef>>) {
    exists i :: 0 <= i < |refs| && refs[i].None? && FetchedBefore(images, blobs, refs, i)
  }

  /** The check ends by an exception instead of an answer. */
  predicate CheckAborts(s: Store, app: AppRef) {
    && Exists(s, app)
    && var dir := s.apps[app.name][app.hash];
    || Unreadable(dir, app.hash)
    || (&& BundleFetched(dir, app.hash) && ArchivedCompose(dir, app.hash).Some?
        && ImagesThrow(dir.images, s.blobs, ArchivedCompose(dir, app.hash).value.images))
  }

  function WithDir(s: Store, app: AppRef, dir: AppDir): Store
    requires app.name in s.apps
  {
    s.(apps := s.apps[app.name := s.apps[app.name][app.hash := dir]])
  }

  lemma WithDirTwice(s: Store, app: AppRef, dir: AppDir, dir': AppDir)
    requires Exists(s, app)
    ensures WithDir(WithDir(s, app, dir), app, dir') == WithDir(s, app, dir')
    ensures WithDir(s, app, s.apps[app.name][app.hash]) == s
  {
    var versions := s.apps[app.name];
    assert versions[app.hash := dir][app.hash := dir'] == versions[app.hash := dir'];
    assert versions[app.hash := versions[app.hash]] == versions;
  }

  /** The compose file is extracted anew as soon as the archive has been verified. */
  function Rewritten(s: Store, app: AppRef): Store
    requires Exists(s, app)
  {
    var dir := s.apps[app.name][app.hash];
    if BundleFetched(dir, app.hash) then WithDir(s, app, dir.(compose := ArchivedCompose(dir, app.hash))) else s
  }

  function Repaired(s: Store, app: AppRef, repair: Repair): Store
    requires Exists(s, app)
  {
    var dir := s.apps[app.name][app.hash];
    match repair
    case NoRepair => s
    case DropIndex(ref) => WithDir(s, app, dir.(images := dir.images[ref := None]))
    case DropImage(ref) => WithDir(s, app, dir.(images := dir.images - {ref}))
    case DropBlob(digest) => s.(blobs := s.blobs - {digest})
  }

  /** The store after the check of `app`. */
  function Checked(s: Store, app: AppRef): Store {
    if Exists(s, app) then Repaired(Rewritten(s, app), app, AppVerdict(s, app).repair) else s
  }

  /** Layer `digest` is stored with a size other than the declared one. */
  predicate WrongSize(blobs: Blobs, layer: LayerEntry, digest: Hash) {
    && layer.Entry? && layer.digest == Some(digest) && layer.size.Size?
    && digest in blobs && blobs[digest].size != ToUnsigned(layer.size.bytes)
  }

  lemma {:induction false} LayersVerdictSound(blobs: Blobs, layers: seq<LayerEntry>, ref: ImageRef)
    ensures var v := LayersVerdict(blobs, layers, ref);
            && (v.fetched <==> forall i | 0 <= i < |layers| :: LayerPresent(blobs, layers[i]))
            && (v.fetched ==> v.repair.NoRepair?)
            && (v.repair.DropBlob? ==> exists i :: 0 <= i < |layers| && WrongSize(blobs, layers[i], v.repair.digest))
  {
    if layers != [] {
      var v, rest := LayersVerdict(blobs, layers, ref), layers[1..];
      LayersVerdictSound(blobs, rest, ref);
      assert forall i | 0 <= i < |rest| :: layers[i + 1] == rest[i];
      assert forall i | 0 < i < |layers| :: layers[i] == rest[i - 1];
      if LayerPresent(blobs, layers[0]) {
        if v.repair.DropBlob? {
          var i :| 0 <= i < |rest| && WrongSize(blobs, rest[i], v.repair.digest);
          assert WrongSize(blobs, layers[i + 1], v.repair.digest);
        }
      } else if v.repair.DropBlob? {
        assert WrongSize(blobs, layers[0], v.repair.digest);
      }
    }
  }

  /** The image of service `ref` declares `digest` as a layer of `bytes` bytes. */
  predicate ImageDeclares(images: map<ImageRef, Option<IndexFile>>, blobs: Blobs, ref: ImageRef, digest: Hash, bytes: int) {
    && HasIndex(images, ref) && images[ref].value.manifest in blobs
    && Entry(Some(digest), Size(bytes)) in blobs[images[ref].value.manifest].manifest.layers
  }

  lemma ImageVerdictSound(images: map<ImageRef, Option<IndexFile>>, blobs: Blobs, ref: ImageRef)
    ensures var v := ImageVerdict(images, blobs, ref);
            && (v.fetched <==> ImageFetched(images, blobs, ref))
            && (v.fetched ==> v.repair.NoRepair?)
            && (v.repair.DropBlob? ==>
                  exists n :: ImageDeclares(images, blobs, ref, v.repair.digest, n)
                              && v.repair.digest in blobs && blobs[v.repair.digest].size != ToUnsigned(n))
  {
    if HasIndex(images, ref) && images[ref].value.manifest in blobs {
      var layers := blobs[images[ref].value.manifest].manifest.layers;
      LayersVerdictSound(blobs, layers, ref);
      var v := ImageVerdict(images, blobs, ref);
      if v.repair.DropBlob? {
        var i :| 0 <= i < |layers| && WrongSize(blobs, layers[i], v.repair.digest);
        assert ImageDeclares(images, blobs, ref, v.repair.digest, layers[i].size.bytes);
      }
    }
  }

  lemma RefsIndex(refs: seq<Option<ImageRef>>, ref: ImageRef) returns (i: nat)
    requires ref in Refs(refs)
    ensures i < |refs| && refs[i] == Some(ref)
  {
    i :| 0 <= i < |refs| && refs[i].Some? && refs[i].value == ref;
  }

  lemma {:induction false} ImagesVerdictSound(images: map<ImageRef, Option<IndexFile>>, blobs: Blobs, refs: seq<Option<ImageRef>>)
    ensures var v := ImagesVerdict(images, blobs, refs);
            && (v.fetched <==>
                  forall i | 0 <= i < |refs| :: refs[i].Some? && ImageFetched(images, blobs, refs[i].value))
            && (v.fetched ==> v.repair.NoRepair?)
            && (v.repair.DropBlob? ==>
                  exists ref, n :: ref in Refs(refs) && ImageDeclares(images, blobs, ref, v.repair.digest, n)
                                   && v.repair.digest in blobs && blobs[v.repair.digest].size != ToUnsigned(n))
  {
    if refs != [] && refs[0].Some? {
      var v, rest := ImagesVerdict(images, blobs, refs), refs[1..];
      ImageVerdictSound(images, blobs, refs[0].value);
      ImagesVerdictSound(images, blobs, rest);
      assert forall i | 0 < i < |refs| :: refs[i] == rest[i - 1];
      assert forall i | 0 <= i < |rest| :: refs[i + 1] == rest[i];
      if v.repair.DropBlob? {
        var ref, n :| (ref == refs[0].value || ref in Refs(rest)) && ImageDeclares(images, blobs, ref, v.repair.digest, n)
                      && v.repair.digest in blobs && blobs[v.repair.digest].size != ToUnsigned(n);
        if ref in Refs(rest) {
          var i := RefsIndex(rest, ref);
          assert refs[i + 1] == rest[i];
        }
      }
    }
  }

  /** `app` declares `digest` as a layer of `bytes` bytes. */
  predicate Declares(s: Store, app: AppRef, digest: Hash, bytes: int) {
    && Exists(s, app)
    && var dir := s.apps[app.name][app.hash];
    && BundleFetched(dir, app.hash) && ArchivedCompose(dir, app.hash).Some?
    && exists ref :: ref in Refs(ArchivedCompose(dir, app.hash).value.images)
                     && ImageDeclares(dir.images, s.blobs, ref, digest, bytes)
  }

  /** The answer is right, and a blob is deleted only if its size is not the declared one. */
  lemma VerdictSound(s: Store, app: AppRef)
    ensures var v := AppVerdict(s, app);
            && (v.fetched <==> IsFetched(s, app))
            && (v.fetched ==> v.repair.NoRepair?)
            && (v.repair.DropBlob? ==>
                  exists n :: Declares(s, app, v.repair.digest, n)
                              && v.repair.digest in s.blobs && s.blobs[v.repair.digest].size != ToUnsigned(n))
  {
    if Exists(s, app) && BundleFetched(s.apps[app.name][app.hash], app.hash) {
      var dir := s.apps[app.name][app.hash];
      var compose := ArchivedCompose(dir, app.hash);
      if compose.Some? {
        ImagesVerdictSound(dir.images, s.blobs, compose.value.images);
        var v := AppVerdict(s, app);
        if v.repair.DropBlob? {
          var ref, n :| ref in Refs(compose.value.images) && ImageDeclares(dir.images, s.blobs, ref, v.repair.digest, n)
                        && v.repair.digest in s.blobs && s.blobs[v.repair.digest].size != ToUnsigned(n);
          assert Declares(s, app, v.repair.digest, n);
        }
      }
    }
  }

  /** The blobs a fetched app depends on. */
  function Closure(s: Store, app: AppRef): set<Hash>
    requires IsFetched(s, app)
  {
    var dir := s.apps[app.name][app.hash];
    var images := ArchivedCompose(dir, app.hash).value.images;
    set i, h | 0 <= i < |images| && h in BlobMarks(s.blobs, dir.images[images[i].value].value.manifest) :: h
  }

  lemma {:induction false} LayerMarksAreDigests(layers: seq<LayerEntry>, h: Hash)
    requires h in LayerMarks(layers)
    ensures exists i :: 0 <= i < |layers| && layers[i].Entry? && layers[i].digest == Some(h)
  {
    if !(layers[0].Entry? && layers[0].digest == Some(h)) {
      LayerMarksAreDigests(layers[1..], h);
      var i :| 0 <= i < |layers[1..]| && layers[1..][i].Entry? && layers[1..][i].digest == Some(h);
      assert layers[i + 1] == layers[1..][i];
    }
  }

  /** Removing one blob breaks an image exactly when the image leads to it. */
  lemma PresentWithout(blobs: Blobs, digest: Hash, gone: Hash)
    requires ManifestPresent(blobs, digest)
    ensures ManifestPresent(blobs - {gone}, digest) <==> gone !in BlobMarks(blobs, digest)
  {
    var layers := blobs[digest].manifest.layers;
    if gone !in BlobMarks(blobs, digest) {
      PresentAfterSweep(blobs, blobs - {gone}, digest);
    } else if gone in LayerMarks(layers) {
      LayerMarksAreDigests(layers, gone);
      var i :| 0 <= i < |layers| && layers[i].Entry? && layers[i].digest == Some(gone);
      assert !LayerPresent(blobs - {gone}, layers[i]);
    }
  }

  lemma FetchedWithout(dir: AppDir, hash: Hash, blobs: Blobs, gone: Hash)
    requires DirFetched(dir, hash, blobs)
    ensures var images := ArchivedCompose(dir, hash).value.images;
            DirFetched(dir, hash, blobs - {gone}) <==>
              forall i | 0 <= i < |images| :: gone !in BlobMarks(blobs, dir.images[images[i].value].value.manifest)
  {
    var images := ArchivedCompose(dir, hash).value.images;
    forall i | 0 <= i < |images|
      ensures ImageFetched(dir.images, blobs - {gone}, images[i].value) <==>
                gone !in BlobMarks(blobs, dir.images[images[i].value].value.manifest)
    {
      PresentWithout(blobs, dir.images[images[i].value].value.manifest, gone);
    }
  }

  // When the check deletes a blob, as a guard on the store.

  /** The layers before one of wrong size are present. */
  predicate LayersDrop(blobs: Blobs, layers: seq<LayerEntry>, h: Hash) {
    exists j :: 0 <= j < |layers| && WrongSize(blobs, layers[j], h)
                && forall i | 0 <= i < j :: LayerPresent(blobs, layers[i])
  }

  /** Index, manifest and config of the image are there, and of its layers one of wrong size comes first. */
  predicate ImageDrops(images: map<ImageRef, Option<IndexFile>>, blobs: Blobs, ref: ImageRef, h: Hash) {
    && HasIndex(images, ref)
    && var digest := images[ref].value.manifest;
    && digest in blobs && blobs[digest].hash == digest
    && var m := blobs[digest].manifest;
    && m.config.Some? && m.config.value in blobs && blobs[m.config.value].hash == m.config.value
    && LayersDrop(blobs, m.layers, h)
  }

  /** The images before such an image are fetched. */
  predicate ImagesDrop(images: map<ImageRef, Option<IndexFile>>, blobs: Blobs, refs: seq<Option<ImageRef>>, h: Hash) {
    exists i :: 0 <= i < |refs| && refs[i].Some? && ImageDrops(images, blobs, refs[i].value, h)
                && FetchedBefore(images, blobs, refs, i)
  }

  predicate Drops(s: Store, app: AppRef, h: Hash) {
    && Exists(s, app)
    && var dir := s.apps[app.name][app.hash];
    && BundleFetched(dir, app.hash) && ArchivedCompose(dir, app.hash).Some?
    && ImagesDrop(dir.images, s.blobs, ArchivedCompose(dir, app.hash).value.images, h)
  }

  lemma LayersDropFirst(blobs: Blobs, layers: seq<LayerEntry>, h: Hash)
    requires layers != []
    ensures LayersDrop(blobs, layers, h) <==>
            WrongSize(blobs, layers[0], h) || (LayerPresent(blobs, layers[0]) && LayersDrop(blobs, layers[1..], h))
  {
    var rest := layers[1..];
    if WrongSize(blobs, layers[0], h) {
      assert LayersDrop(blobs, layers, h);
    }
    if LayerPresent(blobs, layers[0]) && LayersDrop(blobs, rest, h) {
      var j :| 0 <= j < |rest| && WrongSize(blobs, rest[j], h) && forall i | 0 <= i < j :: LayerPresent(blobs, rest[i]);
      assert WrongSize(blobs, layers[j + 1], h);
      assert forall i | 0 < i < j + 1 :: layers[i] == rest[i - 1];
    }
    if LayersDrop(blobs, layers, h) {
      var j :| 0 <= j < |layers| && WrongSize(blobs, layers[j], h)
               && forall i | 0 <= i < j :: LayerPresent(blobs, layers[i]);
      if j > 0 {
        assert WrongSize(blobs, rest[j - 1], h);
        assert forall i | 0 <= i < j - 1 :: rest[i] == layers[i + 1];
      }
    }
  }

  lemma {:induction false} LayersVerdictDrops(blobs: Blobs, layers: seq<LayerEntry>, ref: ImageRef, h: Hash)
    ensures LayersVerdict(blobs, layers, ref).repair == DropBlob(h) <==> LayersDrop(blobs, layers, h)
  {
    if layers != [] {
      LayersDropFirst(blobs, layers, h);
      LayersVerdictDrops(blobs, layers[1..], ref, h);
    }
  }

  lemma ImageVerdictDrops(images: map<ImageRef, Option<IndexFile>>, blobs: Blobs, ref: ImageRef, h: Hash)
    ensures ImageVerdict(images, blobs, ref).repair == DropBlob(h) <==> ImageDrops(images, blobs, ref, h)
  {
    if HasIndex(images, ref) && images[ref].value.manifest in blobs {
      LayersVerdictDrops(blobs, blobs[images[ref].value.manifest].manifest.layers, ref, h);
    }
  }

  lemma FetchedBeforeFirst(images: map<ImageRef, Option<IndexFile>>, blobs: Blobs, refs: seq<Option<ImageRef>>, i: int)
    requires 0 < i <= |refs|
    ensures FetchedBefore(images, blobs, refs, i) <==>
            refs[0].Some? && ImageFetched(images, blobs, refs[0].value) && FetchedBefore(images, blobs, refs[1..], i - 1)
  {
    var rest := refs[1..];
    assert forall k | 0 <= k < i - 1 :: rest[k] == refs[k + 1];
    assert forall k | 0 < k < i :: refs[k] == rest[k - 1];
  }

  lemma ImagesDropFirst(images: map<ImageRef, Option<IndexFile>>, blobs: Blobs, refs: seq<Option<ImageRef>>, h: Hash)
    requires refs != []
    ensures ImagesDrop(images, blobs, refs, h) <==>
            refs[0].Some? && (ImageDrops(images, blobs, refs[0].value, h)
                              || (ImageFetched(images, blobs, refs[0].value) && ImagesDrop(images, blobs, refs[1..], h)))
  {
    var rest := refs[1..];
    if refs[0].Some? && ImageDrops(images, blobs, refs[0].value, h) {
      assert FetchedBefore(images, blobs, refs, 0);
    }
    if refs[0].Some? && ImageFetched(images, blobs, refs[0].value) && ImagesDrop(images, blobs, rest, h) {
      var i :| 0 <= i < |rest| && rest[i].Some? && ImageDrops(images, blobs, rest[i].value, h)
               && FetchedBefore(images, blobs, rest, i);
      assert refs[i + 1] == rest[i];
      FetchedBeforeFirst(images, blobs, refs, i + 1);
    }
    if ImagesDrop(images, blobs, refs, h) {
      var i :| 0 <= i < |refs| && refs[i].Some? && ImageDrops(images, blobs, refs[i].value, h)
               && FetchedBefore(images, blobs, refs, i);
      if i > 0 {
        assert rest[i - 1] == refs[i];
        FetchedBeforeFirst(images, blobs, refs, i);
      }
    }
  }

  /** An image that is fetched makes the check delete nothing. */
  lemma {:induction false} ImagesVerdictDrops(images: map<ImageRef, Option<IndexFile>>, blobs: Blobs,
                                              refs: seq<Option<ImageRef>>, h: Hash)
    ensures ImagesVerdict(images, blobs, refs).repair == DropBlob(h) <==> ImagesDrop(images, blobs, refs, h)
  {
    if refs != [] {
      ImagesDropFirst(images, blobs, refs, h);
      ImagesVerdictDrops(images, blobs, refs[1..], h);
      if refs[0].Some? {
        ImageVerdictDrops(images, blobs, refs[0].value, h);
        ImageVerdictSound(images, blobs, refs[0].value);
      }
    }
  }

  /** The check of an app deletes a blob exactly if the guard holds. */
  lemma DropsIff(s: Store, app: AppRef, h: Hash)
    ensures AppVerdict(s, app).repair == DropBlob(h) <==> Drops(s, app, h)
  {
    if Exists(s, app) && BundleFetched(s.apps[app.name][app.hash], app.hash) {
      var dir := s.apps[app.name][app.hash];
      var compose := ArchivedCompose(dir, app.hash);
      if compose.Some? {
        ImagesVerdictDrops(dir.images, s.blobs, compose.value.images, h);
      }
    }
  }

  /**
   The frame of the check.  Asking whether `a` is fetched leaves another fetched app `b` fetched, unless the first
   thing that is wrong with `a` is the size of a stored layer that `b` depends on.
   */
  lemma CheckFrame(s: Store, a: AppRef, b: AppRef)
    requires a != b && IsFetched(s, b)
    ensures IsFetched(Checked(s, a), b) <==> !exists h :: h in Closure(s, b) && Drops(s, a, h)
  {
    var repair := AppVerdict(s, a).repair;
    var dir := s.apps[b.name][b.hash];
    assert Exists(s, a) ==> Checked(s, a).apps[b.name][b.hash] == dir;
    forall h ensures repair == DropBlob(h) <==> Drops(s, a, h) {
      DropsIff(s, a, h);
    }
    if repair.DropBlob? {
      FetchedWithout(dir, b.hash, s.blobs, repair.digest);
    }
  }

  /** Whatever size `a` declares for a blob `b` depends on, `b` declares it too. */
  ghost predicate SizesAgree(s: Store, a: AppRef, b: AppRef)
    requires IsFetched(s, b)
  {
    forall digest, n | Declares(s, a, digest, n) && digest in Closure(s, b) :: Declares(s, b, digest, n)
  }

  lemma DeclaredIsStored(s: Store, app: AppRef, digest: Hash, n: int)
    requires IsFetched(s, app) && Declares(s, app, digest, n)
    ensures digest in s.blobs && s.blobs[digest].size == ToUnsigned(n)
  {
    var dir := s.apps[app.name][app.hash];
    var ref :| ref in Refs(ArchivedCompose(dir, app.hash).value.images) && ImageDeclares(dir.images, s.blobs, ref, digest, n);
    assert ImageFetched(dir.images, s.blobs, ref);
    var layers := s.blobs[dir.images[ref].value.manifest].manifest.layers;
    var i :| 0 <= i < |layers| && layers[i] == Entry(Some(digest), Size(n));
    assert LayerPresent(s.blobs, layers[i]);
  }

  /** If the manifests agree on sizes, asking about one app never makes another unfetched. */
  lemma AgreeingCheckFrame(s: Store, a: AppRef, b: AppRef)
    requires a != b && IsFetched(s, b) && SizesAgree(s, a, b)
    ensures IsFetched(Checked(s, a), b)
  {
    CheckFrame(s, a, b);
    VerdictSound(s, a);
    forall h | h in Closure(s, b) ensures !Drops(s, a, h) {
      DropsIff(s, a, h);
      forall n | Declares(s, b, h, n) ensures s.blobs[h].size == ToUnsigned(n) {
        DeclaredIsStored(s, b, h, n);
      }
    }
  }

  /** A yes deletes nothing, puts the archived compose file in place, and repeats as a yes. */
  lemma YesChangesNothing(s: Store, app: AppRef)
    requires AppVerdict(s, app).fetched
    ensures var s' := Checked(s, app);
            && IsFetched(s', app) && ComposeIsArchived(s', app) && AppVerdict(s', app).fetched
            && s'.blobs == s.blobs && Checked(s', app) == s'
            && (ComposeIsArchived(s, app) ==> s' == s)
  {
    VerdictSound(s, app);
    VerdictSound(Checked(s, app), app);
    var s' := Checked(s, app);
    var dir, dir' := s.apps[app.name][app.hash], s'.apps[app.name][app.hash];
    assert dir' == dir.(compose := ArchivedCompose(dir, app.hash));
    assert s.apps[app.name][app.hash := dir] == s.apps[app.name];
    assert s'.apps[app.name][app.hash := dir'] == s'.apps[app.name];
    if ComposeIsArchived(s, app) {
      assert dir' == dir;
      assert s'.apps == s.apps;
    }
    assert Checked(s', app).apps == s'.apps;
  }

  /** A directory whose one image leads to `manifest`. */
  function OneImageDir(version: Hash, manifest: Hash): AppDir {
    var compose := Compose([Some(ImageRef("r", "i", "image"))]);
    AppDir(Some(ManifestFile(version, Some(AppManifest(Some("t"), [])))), map["t" := Archive("t", Some(Some(compose)))],
           Some(compose), map[ImageRef("r", "i", "image") := Some(Index(manifest))])
  }

  /** Two blobs of manifests that agree on a layer but for its size. */
  function DisagreeingBlobs(): Blobs {
    var none := ImageManifest(None, []);
    map["ma" := File("ma", 9, ImageManifest(Some("c"), [Entry(Some("l"), Size(1))])),
        "mb" := File("mb", 9, ImageManifest(Some("c"), [Entry(Some("l"), Size(2))])),
        "c" := File("c", 9, none), "l" := File("l", 2, none)]
  }

  lemma OneImageFetched(version: Hash, blobs: Blobs, manifest: Hash)
    requires ManifestPresent(blobs, manifest)
    ensures DirFetched(OneImageDir(version, manifest), version, blobs)
  {
  }

  lemma DisagreeingManifests()
    ensures var blobs := DisagreeingBlobs();
            && ManifestPresent(blobs, "mb") && "l" in BlobMarks(blobs, "mb")
            && ManifestVerdict(blobs, "ma", ImageRef("r", "i", "image")) == Verdict(false, DropBlob("l"))
  {
    var blobs := DisagreeingBlobs();
    assert LayersVerdict(blobs, blobs["ma"].manifest.layers, ImageRef("r", "i", "image"))
        == Verdict(false, DropBlob("l"));
    assert "l" in LayerMarks(blobs["mb"].manifest.layers);
  }

  function TwoAppStore(blobs: Blobs): Store {
    Store(map["a" := map["va" := OneImageDir("va", "ma")], "b" := map["vb" := OneImageDir("vb", "mb")]], blobs, true)
  }

  /** Two apps that disagree on the size of one layer: checking one of them breaks the other. */
  lemma CheckFrameExample(s: Store, blobs: Blobs, a: AppRef, b: AppRef)
    requires blobs == DisagreeingBlobs() && a == AppRef("a", "va") && b == AppRef("b", "vb") && s == TwoAppStore(blobs)
    ensures IsFetched(s, b) && !IsFetched(Checked(s, a), b)
  {
    var ref := ImageRef("r", "i", "image");
    DisagreeingManifests();
    OneImageFetched("vb", blobs, "mb");
    assert ImagesVerdict(OneImageDir("va", "ma").images, blobs, [Some(ref)]) == Verdict(false, DropBlob("l"));
    DropsIff(s, a, "l");
    assert ArchivedCompose(OneImageDir("vb", "mb"), "vb").value.images[0] == Some(ref);
    assert "l" in Closure(s, b);
    CheckFrame(s, a, b);
  }

  /** They may disagree on a size without harm: here the config of the checked app is missing, so the check does not
      get as far as its layers. */
  lemma HarmlessDisagreement(s: Store, blobs: Blobs, a: AppRef, b: AppRef)
    requires blobs == DisagreeingBlobs()["ma" := File("ma", 9, ImageManifest(Some("x"), [Entry(Some("l"), Size(1))]))]
    requires a == AppRef("a", "va") && b == AppRef("b", "vb") && s == TwoAppStore(blobs)
    ensures IsFetched(s, b) && !SizesAgree(s, a, b) && IsFetched(Checked(s, a), b)
  {
    var ref := ImageRef("r", "i", "image");
    var dirA, dirB := OneImageDir("va", "ma"), OneImageDir("vb", "mb");
    assert ManifestPresent(blobs, "mb");
    OneImageFetched("vb", blobs, "mb");
    assert ArchivedCompose(dirB, "vb").value.images[0] == Some(ref);
    assert "l" in LayerMarks(blobs["mb"].manifest.layers);
    assert "l" in BlobMarks(blobs, dirB.images[ref].value.manifest);
    assert "l" in Closure(s, b);
    assert ArchivedCompose(dirA, "va").value.images[0] == Some(ref);
    assert blobs["ma"].manifest.layers[0] == Entry(Some("l"), Size(1));
    assert ImageDeclares(dirA.images, blobs, ref, "l", 1);
    assert Declares(s, a, "l", 1);
    if Declares(s, b, "l", 1) {
      DeclaredIsStored(s, b, "l", 1);
    }
    assert ImagesVerdict(dirA.images, blobs, [Some(ref)]) == MISSING;
    forall h ensures !Drops(s, a, h) {
      DropsIff(s, a, h);
    }
    CheckFrame(s, a, b);
  }

  // ---------------------------------------------------------------------------
  // Fetching
  // ---------------------------------------------------------------------------

  /** What a fetch of `app` may do after its check, whether it succeeds or not: rewrite or remove the directory of the
      app, and add blobs. */
  ghost predicate FetchedInto(s: Store, app: AppRef, s': Store) {
    && (forall b: AppRef | b != app :: Exists(s', b) <==> Exists(s, b))
    && (forall b: AppRef | b != app && Exists(s, b) :: s'.apps[b.name][b.hash] == s.apps[b.name][b.hash])
    && (forall h | h in s.blobs :: h in s'.blobs && s'.blobs[h] == s.blobs[h])
  }

  lemma MoreBlobs(dir: AppDir, hash: Hash, blobs: Blobs, blobs': Blobs)
    requires DirFetched(dir, hash, blobs) && forall h | h in blobs :: h in blobs' && blobs'[h] == blobs[h]
    ensures DirFetched(dir, hash, blobs')
  {
    var images := ArchivedCompose(dir, hash).value.images;
    forall i | 0 <= i < |images| ensures ImageFetched(dir.images, blobs', images[i].value) {
      PresentAfterSweep(blobs, blobs', dir.images[images[i].value].value.manifest);
    }
  }

  /** If the manifests agree on sizes, a fetch of one app, failed or not, leaves every other fetched app fetched. */
  lemma FetchFrame(s: Store, a: AppRef, s': Store, b: AppRef)
    requires a != b && IsFetched(s, b) && SizesAgree(s, a, b) && FetchedInto(Checked(s, a), a, s')
    ensures IsFetched(s', b)
  {
    AgreeingCheckFrame(s, a, b);
    var c := Checked(s, a);
    MoreBlobs(c.apps[b.name][b.hash], b.hash, c.blobs, s'.blobs);
  }
}
