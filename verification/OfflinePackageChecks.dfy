/**
 What the checks of an import amount to, in terms of the archive and the host alone:
 when an archive is refused and why, what an accepted one is, and which host takes the
 export of another.
*/
module OfflinePackageChecks {
  import opened Common
  import opened Text
  import opened OfflinePackageStore
  import opened OfflinePackageProperties
  import opened OfflinePackageExport

  datatype Refusal =
    | BadArchiveSize | Incompatible | BadManifest | ContentsMismatch | BaseImageMissing | RuntimeImageMissing
    | OtherBaseImage | OtherRuntimeImage | TooLarge | BadPath | BadEntrySize | ChecksumMismatch | StagingClash
    | Conflict | DirectoryInTheWay | FileInTheWay | RecordFilesMissing

  // ---------------------------------------------------------------- kinds of packages

  /** The name lies under a directory of this name. */
  predicate Under(name: string, kind: string) {
    name == kind || kind + "/" <= name
  }

  predicate HasPackages(a: Archive, kind: string) {
    exists name :: name in a.contents && Under(name, kind)
  }

  /** Packages that skills are built from; they fit one base image. */
  predicate SkillPackages(a: Archive) {
    HasPackages(a, "pip") || HasPackages(a, "npm") || HasPackages(a, "apt-archives") || HasPackages(a, "apt-lists")
  }

  /** Packages that plugins are built from; they fit one runtime image. */
  predicate PluginPackages(a: Archive) {
    HasPackages(a, "pnpm") || HasPackages(a, "pnpm-cache") || HasPackages(a, "plugin-archives")
  }

  lemma {:induction false} FirstPiece(name: string)
    ensures KindOf(name) <= name && '/' !in KindOf(name)
    ensures KindOf(name) == name || KindOf(name) + "/" <= name
  {
    SplitParts(name, '/');
    if name != "" && name[0] != '/' {
      FirstPiece(name[1..]);
      var rest := KindOf(name[1..]);
      assert KindOf(name) == [name[0]] + rest;
      assert name == [name[0]] + name[1..];
      assert ([name[0]] + rest) + "/" == [name[0]] + (rest + "/");
    }
  }

  lemma SamePiece(name: string, kind: string)
    requires '/' !in kind
    ensures KindOf(name) == kind <==> Under(name, kind)
  {
    FirstPiece(name);
    if name == kind {
      SplitWhole(name, '/');
    } else if kind + "/" <= name {
      var tail := name[|kind| + 1..];
      assert name == kind + ['/'] + tail;
      SplitAtSeparator(name, kind, tail, '/');
    }
  }

  lemma NoSlashes()
    ensures '/' !in "pip" && '/' !in "npm" && '/' !in "apt-archives" && '/' !in "apt-lists"
    ensures '/' !in "pnpm" && '/' !in "pnpm-cache" && '/' !in "plugin-archives"
  {}

  lemma HoldsKind(a: Archive, kind: string)
    requires '/' !in kind
    ensures HasPackages(a, kind) <==> exists name :: name in a.contents && KindOf(name) == kind
  {
    forall name | name in a.contents ensures KindOf(name) == kind <==> Under(name, kind) {
      SamePiece(name, kind);
    }
    if HasPackages(a, kind) {
      var name :| name in a.contents && Under(name, kind);
      assert KindOf(name) == kind;
    }
  }

  lemma SkillKinds(a: Archive)
    ensures SkillPackages(a) <==> HasKind(a.contents, SKILL_KINDS)
  {
    NoSlashes();
    HoldsKind(a, "pip");
    HoldsKind(a, "npm");
    HoldsKind(a, "apt-archives");
    HoldsKind(a, "apt-lists");
    if HasKind(a.contents, SKILL_KINDS) {
      var name :| name in a.contents && KindOf(name) in SKILL_KINDS;
      assert KindOf(name) in {"pip", "npm", "apt-archives", "apt-lists"};
    }
  }

  lemma PluginKinds(a: Archive)
    ensures PluginPackages(a) <==> HasKind(a.contents, PLUGIN_KINDS)
  {
    NoSlashes();
    HoldsKind(a, "pnpm");
    HoldsKind(a, "pnpm-cache");
    HoldsKind(a, "plugin-archives");
    if HasKind(a.contents, PLUGIN_KINDS) {
      var name :| name in a.contents && KindOf(name) in PLUGIN_KINDS;
      assert KindOf(name) in {"pnpm", "pnpm-cache", "plugin-archives"};
    }
  }

  // ---------------------------------------------------------------- the manifest

  /** The names in the manifest are the entries of the archive, and none is there twice. */
  ghost predicate SameNames(a: Archive) {
    && a.manifest.files.Some?
    && (forall i :: 0 <= i < |a.manifest.files.value| ==> a.manifest.files.value[i].Item?)
    && (forall i :: 0 <= i < |a.manifest.files.value| ==>
          a.manifest.files.value[i].path.Some? && a.manifest.files.value[i].path.value in a.contents)
    && (forall name :: name in a.contents ==> IsNamed(a.manifest.files.value, name))
    && |a.manifest.files.value| == |a.contents|
  }

  ghost predicate IsNamed(items: seq<Item>, name: string) {
    exists i :: 0 <= i < |items| && items[i].Item? && items[i].path == Some(name)
  }

  /** The packages for this kind of image fit the host: the archive names its image, if it has one, and no other. */
  predicate FitsImage(there: bool, configured: bool, declared: string, actual: Option<string>) {
    there ==> if declared == "" then !configured else actual == Some(declared)
  }

  /** The archive can be unpacked on this host. */
  ghost predicate Fits(a: Archive, host: Host) {
    && 0 < a.bytes <= 2147483648
    && a.manifest.version == 1 && a.manifest.platform == host.platform && a.manifest.os == host.os
    && SameNames(a) && |a.contents| <= 100000
    && FitsImage(SkillPackages(a), host.scriptImage, a.manifest.baseImage, host.baseImageId)
    && FitsImage(PluginPackages(a), host.runtimeImage, a.manifest.runtimeImage, host.runtimeImageId)
  }

  /** Which check fails first. */
  ghost predicate Refuses(a: Archive, host: Host, r: Option<Refusal>) {
    var compatible := a.manifest.version == 1 && a.manifest.platform == host.platform && a.manifest.os == host.os;
    if !(0 < a.bytes <= 2147483648) then r == Some(BadArchiveSize)
    else if !compatible then r == Some(Incompatible)
    else if a.manifest.files.None? || |a.manifest.files.value| > 100000 then r == Some(BadManifest)
    else if !SameNames(a) then r == Some(ContentsMismatch)
    else if SkillPackages(a) && host.scriptImage && a.manifest.baseImage == "" then r == Some(BaseImageMissing)
    else if PluginPackages(a) && host.runtimeImage && a.manifest.runtimeImage == "" then r == Some(RuntimeImageMissing)
    else if SkillPackages(a) && a.manifest.baseImage != "" && host.baseImageId != Some(a.manifest.baseImage)
    then r == Some(OtherBaseImage)
    else if PluginPackages(a) && a.manifest.runtimeImage != "" && host.runtimeImageId != Some(a.manifest.runtimeImage)
    then r == Some(OtherRuntimeImage)
    else r == None || r == Some(TooLarge)
  }

  /** A set of as many names as there are items is a list without repetitions. */
  lemma {:induction false} NamesOnce(items: seq<Item>, names: set<string>)
    requires forall i :: 0 <= i < |items| ==> items[i].Item? && items[i].path.Some? && items[i].path.value in names
    requires forall name :: name in names ==> IsNamed(items, name)
    ensures |items| >= |names|
    ensures |items| == |names| <==> forall i, j :: 0 <= i < j < |items| ==> items[i].path != items[j].path
    decreases |items|
  {
    if items == [] {
      assert forall name :: !IsNamed(items, name);
      assert forall name :: name !in names;
      assert names == {};
    } else {
      var init, last := items[..|items| - 1], items[|items| - 1].path.value;
      if IsNamed(init, last) {
        forall name | name in names ensures IsNamed(init, name) { NamedBefore(items, name); }
        NamesOnce(init, names);
        var i :| 0 <= i < |init| && init[i].Item? && init[i].path == Some(last);
        assert items[i].path == items[|items| - 1].path;
      } else {
        var fewer := names - {last};
        forall name | name in fewer ensures IsNamed(init, name) { NamedBefore(items, name); }
        NamesOnce(init, fewer);
        assert names == fewer + {last};
      }
    }
  }

  lemma NamedBefore(items: seq<Item>, name: string)
    requires items != [] && IsNamed(items, name)
    ensures IsNamed(items[..|items| - 1], name) || items[|items| - 1].path == Some(name)
  {
    var i :| 0 <= i < |items| && items[i].Item? && items[i].path == Some(name);
    if i < |items| - 1 {
      assert items[..|items| - 1][i] == items[i];
    }
  }

  lemma SameNamesListed(a: Archive)
    requires a.manifest.files.Some?
    ensures SameNames(a) <==> Listed(Items(a), a.contents)
  {
    var items := Items(a);
    assert |a.contents| == |a.contents.Keys|;
    if SameNames(a) || Listed(items, a.contents) {
      forall name | name in a.contents.Keys ensures IsNamed(items, name) {}
      NamesOnce(items, a.contents.Keys);
    }
  }

  /** The manifest check refuses an archive for the first thing that is wrong with it. */
  lemma AcceptableExactly(a: Archive, host: Host)
    ensures Acceptable(a, host) <==> Fits(a, host) && TotalSize(Items(a)) <= 2 * 2147483648
    ensures Fits(a, host) <==> Refuses(a, host, None)
  {
    SkillKinds(a);
    PluginKinds(a);
    if a.manifest.files.Some? {
      SameNamesListed(a);
    }
  }
  // ---------------------------------------------------------------- the entries

  /** One item of an accepted archive: a file in the directory of a kind, as long as it says, with its digest. */
  ghost predicate SoundItem(a: Archive, item: Item, hash: Content -> string)
    requires item.Item? && item.path.Some? && item.path.value in a.contents
  {
    var path, content := Parts(item.path.value), a.contents[item.path.value];
    && |path| >= 2 && ".." !in path
    && path[0] in {"pip", "npm", "pnpm", "pnpm-cache", "apt-archives", "apt-lists", "plugin-archives", "collections"}
    && item.size == Some(|content|) && |content| <= 2147483648 && item.sha256 == Some(hash(content))
  }

  /** The place of one item: no directory, and if a file then one with the digest of the new content. */
  predicate FreeOrSame(t: Tree, path: Path, content: Content, hash: Content -> string) {
    path !in t.dirs && (path in t.files ==> hash(t.files[path]) == hash(content))
  }

  lemma SoundEntry(a: Archive, item: Item, hash: Content -> string)
    requires item.Item? && item.path.Some? && item.path.value in a.contents
    ensures SoundItem(a, item, hash) <==> EntryOk(EntryOf(item, a.contents), hash)
  {
    var relative := item.path.value;
    var names := Filter(IsKept, Split(relative, '/'));
    assert "" !in names && "." !in names;
    var path := Parts(relative);
    if relative != "" && relative[0] == '/' {
      assert path[0] == "/" || path[0] == "//";
    } else {
      assert path == names;
    }
  }

  /** The bytes of all listed entries. */
  function BytesOf(items: seq<Item>, contents: map<string, Content>): nat {
    if items == [] then 0
    else
      var last := items[|items| - 1];
      BytesOf(items[..|items| - 1], contents)
      + (if last.Item? && last.path.Some? && last.path.value in contents then |contents[last.path.value]| else 0)
  }

  lemma {:induction false} TotalIsBytes(items: seq<Item>, contents: map<string, Content>)
    requires forall i :: 0 <= i < |items| ==> items[i].Item? && items[i].path.Some? && items[i].path.value in contents
    requires forall i :: 0 <= i < |items| ==> items[i].size == Some(|contents[items[i].path.value]|)
    ensures TotalSize(items) == BytesOf(items, contents)
    decreases |items|
  {
    if items != [] {
      TotalIsBytes(items[..|items| - 1], contents);
    }
  }

  /** No entry lies under another one. */
  ghost predicate SideBySide(items: seq<Item>)
    requires forall i :: 0 <= i < |items| ==> items[i].Item? && items[i].path.Some?
  {
    forall i, j :: 0 <= i < |items| && 0 <= j < |items| ==>
      !IsAncestor(Parts(items[i].path.value), Parts(items[j].path.value))
  }

  /** The archive is what it says it is. */
  ghost predicate Sound(a: Archive, hash: Content -> string)
    requires SameNames(a)
  {
    && AllSound(a, hash)
    && SideBySide(Items(a)) && BytesOf(Items(a), a.contents) <= 4294967296
  }

  /** The store has room for it. */
  ghost predicate HasRoomFor(t: Tree, a: Archive, hash: Content -> string)
    requires SameNames(a)
  {
    forall i :: 0 <= i < |Items(a)| ==>
      RoomAt(t, Parts(Items(a)[i].path.value), a.contents[Items(a)[i].path.value], hash)
  }

  ghost predicate AllSound(a: Archive, hash: Content -> string)
    requires SameNames(a)
  {
    forall i :: 0 <= i < |Items(a)| ==> SoundItem(a, Items(a)[i], hash)
  }

  ghost predicate AllOk(es: seq<Entry>, hash: Content -> string) {
    forall i :: 0 <= i < |es| ==> EntryOk(es[i], hash)
  }

  lemma SoundEntries(a: Archive, hash: Content -> string)
    requires SameNames(a)
    ensures AllSound(a, hash) <==> AllOk(Entries(Items(a), a.contents), hash)
  {
    var items := Items(a);
    var es := Entries(items, a.contents);
    forall i | 0 <= i < |items| ensures SoundItem(a, items[i], hash) <==> EntryOk(es[i], hash) {
      SoundEntry(a, items[i], hash);
    }
    if AllOk(es, hash) {
      forall i | 0 <= i < |items| ensures SoundItem(a, items[i], hash) {
        assert EntryOk(es[i], hash);
      }
    }
  }

  lemma NoneUnder(a: Archive)
    requires SameNames(a)
    ensures SideBySide(Items(a)) <==> NoClash(Entries(Items(a), a.contents))
  {
    var items := Items(a);
    var es := Entries(items, a.contents);
    assert forall i :: 0 <= i < |items| ==> es[i].path == Parts(items[i].path.value);
  }

  lemma SoundVerified(a: Archive, hash: Content -> string)
    requires SameNames(a)
    ensures Sound(a, hash) <==>
      Verified(Entries(Items(a), a.contents), hash) && TotalSize(Items(a)) <= 2 * 2147483648
  {
    var es := Entries(Items(a), a.contents);
    SoundEntries(a, hash);
    NoneUnder(a);
    if AllSound(a, hash) {
      TotalOfSound(a, hash);
    }
    assert Sound(a, hash) <==> AllSound(a, hash) && SideBySide(Items(a)) && BytesOf(Items(a), a.contents) <= 4294967296;
    assert Verified(es, hash) <==> AllOk(es, hash) && NoClash(es);
  }

  lemma TotalOfSound(a: Archive, hash: Content -> string)
    requires SameNames(a) && AllSound(a, hash)
    ensures TotalSize(Items(a)) == BytesOf(Items(a), a.contents)
  {
    var items := Items(a);
    forall i | 0 <= i < |items| ensures items[i].size == Some(|a.contents[items[i].path.value]|) {
      assert SoundItem(a, items[i], hash);
    }
    TotalIsBytes(items, a.contents);
  }

  /** One place in the store. */
  ghost predicate RoomAt(t: Tree, path: Path, content: Content, hash: Content -> string) {
    FreeOrSame(t, path, content, hash) && forall p :: p in t.files ==> !IsAncestor(p, path)
  }

  lemma PlaceOf(t: Tree, e: Entry, hash: Content -> string)
    requires EntryOk(e, hash)
    ensures RoomAt(t, e.path, e.content, hash) <==> TargetOk(t, e, hash) && Reachable(t.files, e)
  {}

  lemma RoomIsPlace(t: Tree, a: Archive, hash: Content -> string)
    requires SameNames(a) && AllSound(a, hash)
    ensures HasRoomFor(t, a, hash) <==>
      NoConflict(t, Entries(Items(a), a.contents), hash) && AllReachable(t, Entries(Items(a), a.contents))
  {
    var items := Items(a);
    var es := Entries(items, a.contents);
    SoundEntries(a, hash);
    forall i | 0 <= i < |items|
      ensures RoomAt(t, es[i].path, es[i].content, hash) <==> TargetOk(t, es[i], hash) && Reachable(t.files, es[i])
    {
      assert EntryOk(es[i], hash);
      PlaceOf(t, es[i], hash);
    }
    if HasRoomFor(t, a, hash) {
      forall i | 0 <= i < |es| ensures TargetOk(t, es[i], hash) && Reachable(t.files, es[i]) {
        assert RoomAt(t, Parts(items[i].path.value), a.contents[items[i].path.value], hash);
      }
    }
    if NoConflict(t, es, hash) && AllReachable(t, es) {
      forall i | 0 <= i < |items|
        ensures RoomAt(t, Parts(items[i].path.value), a.contents[items[i].path.value], hash)
      {
        assert TargetOk(t, es[i], hash) && Reachable(t.files, es[i]);
      }
    }
  }

  /**
   An import succeeds exactly when the archive fits the host, is what it says it is,
   and finds room in the store.
  */
  lemma ImportsExactly(t: Tree, a: Archive, host: Host, hash: Content -> string)
    ensures Imports(t, a, host, hash) <==> Fits(a, host) && Sound(a, hash) && HasRoomFor(t, a, hash)
  {
    AcceptableExactly(a, host);
    if Fits(a, host) {
      SameNamesListed(a);
      SoundVerified(a, hash);
      if Sound(a, hash) {
        RoomIsPlace(t, a, hash);
      }
    }
  }

  // ---------------------------------------------------------------- exports for other hosts

  /** The names in an exported archive: files of the tree, no locks, nothing partial, and selected ones only. */
  lemma ExportTakes(t: Tree, selected: Option<set<string>>, listing: seq<Path>, host: Host, hash: Content -> string,
                    bytes: nat, name: string)
    requires WellFormed(t) && IsListing(t, listing) && ImagesKnown(host)
    ensures var a, path := Exported(t, selected, listing, host, hash, bytes), Parts(name);
      && (name in a.contents <==>
            && path in t.files && Join(path, '/') == name && path[|path| - 1] != "lock" && "partial" !in path
            && (selected.None? || name in selected.value))
      && (name in a.contents ==> a.contents[name] == t.files[path])
  {
    ContentsAre(t, selected, listing, name);
    if Parts(name) in t.files {
      FilePath(t, Parts(name));
    }
  }
  /** The tree has an exported file of a kind that belongs to the first image, or to the second. */
  predicate ExportsSkills(t: Tree, selected: Option<set<string>>) {
    exists p :: p in t.files && Exports(t, selected, p) && p[0] in {"pip", "npm", "apt-archives", "apt-lists"}
  }

  predicate ExportsPlugins(t: Tree, selected: Option<set<string>>) {
    exists p :: p in t.files && Exports(t, selected, p) && p[0] in {"pnpm", "pnpm-cache", "plugin-archives"}
  }

  lemma FirstName(p: Path)
    requires p != [] && AllNames(p)
    ensures KindOf(Join(p, '/')) == p[0]
  {
    forall name | name in p ensures '/' !in name {
      assert IsName(name);
    }
    SplitJoin(p, '/');
  }

  lemma ExportedKinds(t: Tree, selected: Option<set<string>>, listing: seq<Path>, kinds: set<string>)
    requires WellFormed(t) && IsListing(t, listing)
    ensures HasKind(ExportContents(t, selected, listing), kinds) <==>
      exists p :: p in t.files && Exports(t, selected, p) && p[0] in kinds
  {
    var contents := ExportContents(t, selected, listing);
    if name :| name in contents && KindOf(name) in kinds {
      ContentsAre(t, selected, listing, name);
      FirstName(Parts(name));
      assert Exports(t, selected, Parts(name));
    }
    if p :| p in t.files && Exports(t, selected, p) && p[0] in kinds {
      FilePath(t, p);
      ContentsAre(t, selected, listing, Join(p, '/'));
      FirstName(p);
      assert Join(p, '/') in contents;
    }
  }

  /** One image of the host an archive was made on, as another host sees it. */
  predicate SameImage(there: bool, recorded: bool, made: Option<string>, configured: bool, actual: Option<string>) {
    there ==> if recorded then actual == made else !configured
  }

  lemma ImageElsewhere(there: bool, recorded: bool, made: Option<string>, configured: bool, actual: Option<string>)
    requires recorded ==> made.Some? && made.value != ""
    ensures ImageAgrees(there, configured, if recorded then made.value else "", actual)
       <==> SameImage(there, recorded, made, configured, actual)
  {}

  lemma ExportedSkills(t: Tree, selected: Option<set<string>>, listing: seq<Path>)
    requires WellFormed(t) && IsListing(t, listing)
    ensures HasKind(ExportContents(t, selected, listing), SKILL_KINDS) <==> ExportsSkills(t, selected)
  {
    ExportedKinds(t, selected, listing, SKILL_KINDS);
    assert SKILL_KINDS == {"pip", "npm", "apt-archives", "apt-lists"};
  }

  lemma ExportedPlugins(t: Tree, selected: Option<set<string>>, listing: seq<Path>)
    requires WellFormed(t) && IsListing(t, listing)
    ensures HasKind(ExportContents(t, selected, listing), PLUGIN_KINDS) <==> ExportsPlugins(t, selected)
  {
    ExportedKinds(t, selected, listing, PLUGIN_KINDS);
    assert PLUGIN_KINDS == {"pnpm", "pnpm-cache", "plugin-archives"};
  }

  /**
   An export is accepted by the manifest check of another host exactly when that is the
   same kind of machine, has the images the packages were prepared for, and the archive
   keeps the limits; where the exporting host recorded no image, the other may have none.
  */
  lemma ExportElsewhere(t: Tree, selected: Option<set<string>>, listing: seq<Path>, from: Host, to: Host,
                        hash: Content -> string, bytes: nat)
    requires WellFormed(t) && IsListing(t, listing) && ImagesKnown(from)
    ensures var a := Exported(t, selected, listing, from, hash, bytes);
      Acceptable(a, to) <==>
        && 0 < bytes <= 2147483648 && |Items(a)| <= 100000 && TotalSize(Items(a)) <= 4294967296
        && to.platform == from.platform && to.os == from.os
        && SameImage(ExportsSkills(t, selected), from.scriptImage, from.baseImageId, to.scriptImage, to.baseImageId)
        && SameImage(ExportsPlugins(t, selected), from.runtimeImage, from.runtimeImageId, to.runtimeImage,
                     to.runtimeImageId)
  {
    ExportListed(t, selected, listing, hash);
    ExportedSkills(t, selected, listing);
    ExportedPlugins(t, selected, listing);
    ImageElsewhere(ExportsSkills(t, selected), from.scriptImage, from.baseImageId, to.scriptImage, to.baseImageId);
    ImageElsewhere(ExportsPlugins(t, selected), from.runtimeImage, from.runtimeImageId, to.runtimeImage,
                   to.runtimeImageId);
  }

  /** So a host with another base image never imports skill packages, into whatever store. */
  lemma OtherImageRefused(t: Tree, selected: Option<set<string>>, listing: seq<Path>, from: Host, to: Host,
                          hash: Content -> string, bytes: nat, store: Tree, p: Path)
    requires WellFormed(t) && IsListing(t, listing) && ImagesKnown(from) && from.scriptImage
    requires p in t.files && Exports(t, selected, p) && p[0] in {"pip", "npm", "apt-archives", "apt-lists"}
    requires to.baseImageId != from.baseImageId
    ensures !Imports(store, Exported(t, selected, listing, from, hash, bytes), to, hash)
  {
    ExportElsewhere(t, selected, listing, from, to, hash, bytes);
  }
}
