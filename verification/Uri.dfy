/** `Docker::Uri` and `Docker::HashedDigest` (src/docker/docker.cc): pinned URIs of apps and images. */
module Uri {
  import opened Basics
  import opened Strings

  const TYPE: string := "sha256:"

  function Lower(c: char): char {
    if 'A' <= c <= 'Z' then (c as int + 32) as char else c
  }

  function ToLower(s: string): string {
    seq(|s|, i requires 0 <= i < |s| => Lower(s[i]))
  }

  predicate IsLower(s: string) {
    forall i | 0 <= i < |s| :: !('A' <= s[i] <= 'Z')
  }

  lemma LowerIsSame(s: string)
    requires IsLower(s)
    ensures ToLower(s) == s
  {
  }

  /** The hash of a digest; `None` if it is no sha256 digest. */
  function ParseDigest(digest: string): Option<Hash> {
    var lower := ToLower(digest);
    if |lower| < |TYPE| || lower[..|TYPE|] != TYPE || |lower| - |TYPE| != 64 then None else Some(lower[|TYPE|..])
  }

  /** `factory` is empty if the name has one part only. */
  datatype Uri = Uri(hash: Hash, app: string, factory: string, repo: string, registry: string)

  function LastSlash(name: string): Option<nat> {
    FindLast(name, "/", |name|)
  }

  function FactoryOf(name: string): string {
    if LastSlash(name).Some? then name[..LastSlash(name).value] else ""
  }

  function AppOf(name: string): string {
    if LastSlash(name).Some? then name[LastSlash(name).value + 1..] else name
  }

  function UriOf(registry: string, name: string, hash: Option<Hash>, factoryApp: bool): Option<Uri> {
    if factoryApp && (FactoryOf(name) == "" || '/' in FactoryOf(name)) then None
    else if hash.None? then None
    else Some(Uri(hash.value, AppOf(name), FactoryOf(name), name, registry))
  }

  /** The first slash and the first at sign; the name between them must not be empty. */
  datatype Cut = Cut(slash: nat, at: nat)

  function CutOf(uri: string): (r: Option<Cut>)
    ensures r.Some? ==> r.value.slash + 1 < r.value.at < |uri|
  {
    var at := FindChar(uri, '@', 0);
    var slash := FindChar(uri, '/', 0);
    if at.None? || slash.None? || at.value <= slash.value + 1 then None else Some(Cut(slash.value, at.value))
  }

  function ParseUri(uri: string, factoryApp: bool): Option<Uri> {
    var cut := CutOf(uri);
    if cut.None? then None
    else
      UriOf(uri[..cut.value.slash], uri[cut.value.slash + 1..cut.value.at], ParseDigest(uri[cut.value.at + 1..]),
            factoryApp)
  }

  function Print(u: Uri): string {
    u.registry + "/" + u.repo + "@" + TYPE + u.hash
  }

  /** What `ParseUri` can return. */
  predicate WellFormed(u: Uri) {
    && Without(u.registry, '/') && Without(u.registry, '@') && u.repo != "" && Without(u.repo, '@')
    && |u.hash| == 64 && IsLower(u.hash)
    && Without(u.app, '/')
    && (u.repo == u.factory + "/" + u.app || (u.factory == "" && u.repo == u.app))
  }

  /** The app is what follows the last slash of the name. */
  lemma LastSlashOf(u: Uri)
    requires WellFormed(u)
    ensures if u.repo == u.app then LastSlash(u.repo).None? else LastSlash(u.repo) == Some(|u.factory|)
  {
    var name := u.repo;
    if name == u.app {
      NoSlash(name, |name|);
    } else {
      var k := |u.factory|;
      assert name[k..k + 1] == "/";
      forall i | k < i < |name| ensures !OccursAt(name, "/", i) {
        assert name[i] == u.app[i - k - 1];
        assert name[i] == name[i..i + 1][0];
      }
      FindLastAt(name, "/", |name|, k);
    }
  }

  lemma {:induction false} NoSlash(s: string, to: nat)
    requires Without(s, '/') && to <= |s|
    ensures FindLast(s, "/", to).None?
  {
    if to > 0 {
      assert s[to - 1] == s[to - 1..to][0];
      NoSlash(s, to - 1);
    }
  }

  lemma DigestRoundTrip(hash: Hash)
    requires |hash| == 64 && IsLower(hash)
    ensures ParseDigest(TYPE + hash) == Some(hash)
  {
    var digest := TYPE + hash;
    forall i | 0 <= i < |digest| ensures !('A' <= digest[i] <= 'Z') {
      if i >= |TYPE| {
        assert digest[i] == hash[i - |TYPE|];
      }
    }
    LowerIsSame(digest);
    assert digest[..|TYPE|] == TYPE && digest[|TYPE|..] == hash;
  }

  /** The first slash and the first at sign of a printed URI. */
  lemma Separators(s: string, u: Uri)
    requires WellFormed(u) && s == Print(u)
    ensures FindChar(s, '/', 0) == Some(|u.registry|)
    ensures FindChar(s, '@', 0) == Some(|u.registry| + 1 + |u.repo|)
  {
    var slash, at := |u.registry|, |u.registry| + 1 + |u.repo|;
    assert s[slash] == '/' && s[at] == '@';
    forall i | 0 <= i < slash ensures s[i] != '/' && s[i] != '@' {
      assert s[i] == u.registry[i];
    }
    forall i | slash < i < at ensures s[i] != '@' {
      assert s[i] == u.repo[i - slash - 1];
    }
    FindCharFirst(s, '/', 0, slash);
    FindCharFirst(s, '@', 0, at);
  }

  /** The parts of a printed URI. */
  predicate Parts(s: string, u: Uri) {
    var slash, at := |u.registry|, |u.registry| + 1 + |u.repo|;
    && at < |s| && s[..slash] == u.registry && s[slash] == '/' && s[slash + 1..at] == u.repo && s[at] == '@'
    && s[at + 1..] == TYPE + u.hash
  }

  lemma PrintedParts(u: Uri)
    ensures Parts(Print(u), u)
  {
  }

  lemma NameParts(u: Uri)
    requires WellFormed(u) && u.repo != u.app
    ensures |u.factory| < |u.repo| && u.repo[..|u.factory|] == u.factory && u.repo[|u.factory| + 1..] == u.app
  {
  }

  lemma PartsOfName(u: Uri)
    requires WellFormed(u)
    ensures FactoryOf(u.repo) == u.factory && AppOf(u.repo) == u.app
  {
    LastSlashOf(u);
    if u.repo != u.app {
      NameParts(u);
    }
  }

  lemma ParseParts(s: string, u: Uri, factoryApp: bool)
    requires Parts(s, u) && CutOf(s) == Some(Cut(|u.registry|, |u.registry| + 1 + |u.repo|))
    ensures ParseUri(s, factoryApp) == UriOf(u.registry, u.repo, ParseDigest(TYPE + u.hash), factoryApp)
  {
    ParseCut(s, CutOf(s).value, u.registry, u.repo, TYPE + u.hash, factoryApp);
  }

  lemma ParseCut(s: string, cut: Cut, registry: string, repo: string, digest: string, factoryApp: bool)
    requires CutOf(s) == Some(cut) && cut.slash < cut.at < |s|
    requires s[..cut.slash] == registry && s[cut.slash + 1..cut.at] == repo && s[cut.at + 1..] == digest
    ensures ParseUri(s, factoryApp) == UriOf(registry, repo, ParseDigest(digest), factoryApp)
  {
  }

  lemma UriOfPrinted(u: Uri, factoryApp: bool)
    requires WellFormed(u)
    ensures UriOf(u.registry, u.repo, ParseDigest(TYPE + u.hash), factoryApp) ==
            if factoryApp && (u.factory == "" || '/' in u.factory) then None else Some(u)
  {
    DigestRoundTrip(u.hash);
    PartsOfName(u);
  }

  /** Printing a URI and parsing it gives it back; as a factory app exactly if its name has two parts. */
  lemma ParsePrinted(u: Uri, s: string, factoryApp: bool)
    requires WellFormed(u) && s == Print(u)
    ensures ParseUri(s, factoryApp) ==
            if factoryApp && (u.factory == "" || '/' in u.factory) then None else Some(u)
  {
    PrintedParts(u);
    Separators(s, u);
    ParseParts(s, u, factoryApp);
    UriOfPrinted(u, factoryApp);
  }

  /** A name is its factory, if there is a slash, and its app, which has none. */
  lemma NameOfParts(name: string)
    ensures Without(AppOf(name), '/')
    ensures name == FactoryOf(name) + "/" + AppOf(name) || (FactoryOf(name) == "" && name == AppOf(name))
  {
    var last := LastSlash(name);
    var app, from := AppOf(name), if last.Some? then last.value + 1 else 0;
    forall i | 0 <= i < |app| ensures app[i] != '/' {
      FindLastAfter(name, "/", |name|, from + i);
      assert name[from + i..from + i + 1] == [app[i]];
    }
    if last.Some? {
      var k := last.value;
      LastIsSlash(name, |name|);
      assert name == name[..k] + [name[k]] + name[k + 1..];
    }
  }

  lemma {:induction false} LastIsSlash(name: string, to: nat)
    requires FindLast(name, "/", to).Some? && to <= |name|
    ensures name[FindLast(name, "/", to).value] == '/'
  {
    if OccursAt(name, "/", to - 1) {
      assert name[to - 1] == name[to - 1..to][0];
    } else {
      LastIsSlash(name, to - 1);
    }
  }

  lemma ParsedDigest(digest: string)
    requires ParseDigest(digest).Some?
    ensures var hash := ParseDigest(digest).value;
            |hash| == 64 && IsLower(hash) && ToLower(digest) == TYPE + hash
  {
    var lower := ToLower(digest);
    assert lower == lower[..|TYPE|] + lower[|TYPE|..];
  }

  lemma CutMeaning(s: string)
    requires CutOf(s).Some?
    ensures var cut := CutOf(s).value;
            && Without(s[..cut.slash], '/') && Without(s[..cut.at], '@')
            && s[..cut.at + 1] == s[..cut.slash] + "/" + s[cut.slash + 1..cut.at] + "@"
  {
    var at, slash := CutOf(s).value.at, CutOf(s).value.slash;
    forall i | 0 <= i < at ensures s[i] != '@' && (i < slash ==> s[i] != '/') {
      FindCharBefore(s, '@', 0, i);
      if i < slash {
        FindCharBefore(s, '/', 0, i);
      }
    }
    assert s[..at + 1] == s[..slash] + [s[slash]] + s[slash + 1..at] + [s[at]];
  }

  lemma WithoutPart(s: string, c: char, from: nat, to: nat)
    requires Without(s, c) && from <= to <= |s|
    ensures Without(s[from..to], c)
  {
  }

  lemma UriOfParts(registry: string, name: string, digest: string, factoryApp: bool)
    requires Without(registry, '/') && Without(registry, '@') && name != "" && Without(name, '@')
    requires UriOf(registry, name, ParseDigest(digest), factoryApp).Some?
    ensures var u := UriOf(registry, name, ParseDigest(digest), factoryApp).value;
            WellFormed(u) && u.registry == registry && u.repo == name && ToLower(digest) == TYPE + u.hash
  {
    NameOfParts(name);
    ParsedDigest(digest);
  }

  lemma CutParts(s: string, registry: string, name: string, digest: string)
    requires CutOf(s).Some?
    requires var cut := CutOf(s).value;
             registry == s[..cut.slash] && name == s[cut.slash + 1..cut.at] && digest == s[cut.at + 1..]
    ensures Without(registry, '/') && Without(registry, '@') && name != "" && Without(name, '@')
    ensures s == registry + "/" + name + "@" + digest
  {
    var cut := CutOf(s).value;
    CutMeaning(s);
    WithoutPart(s[..cut.at], '@', 0, cut.slash);
    WithoutPart(s[..cut.at], '@', cut.slash + 1, cut.at);
    assert registry == s[..cut.at][0..cut.slash] && name == s[..cut.at][cut.slash + 1..cut.at];
    assert s == s[..cut.at + 1] + digest;
  }

  /** A URI that is accepted is well formed, and prints as it was, but for upper-case letters in the digest. */
  lemma PrintParsed(s: string, factoryApp: bool) returns (digest: string)
    requires ParseUri(s, factoryApp).Some?
    ensures var u := ParseUri(s, factoryApp).value;
            WellFormed(u) && s == u.registry + "/" + u.repo + "@" + digest && ToLower(digest) == TYPE + u.hash
  {
    var cut := CutOf(s).value;
    var registry, name := s[..cut.slash], s[cut.slash + 1..cut.at];
    digest := s[cut.at + 1..];
    CutParts(s, registry, name, digest);
    UriOfParts(registry, name, digest, factoryApp);
  }
}
