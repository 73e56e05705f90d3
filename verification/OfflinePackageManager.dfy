/**
 The package store as an object: import in three passes over the entries (stage and
 verify, check for conflicts, install), and export in one pass over the files.
*/
module OfflinePackageManager {
  import opened Common
  import opened Text
  import opened OfflinePackageStore
  import opened OfflinePackageProperties
  import opened OfflinePackageExport
  import opened OfflinePackageChecks

  /** What the install pass leaves behind when it stops at a directory it cannot make. */
  ghost predicate StoppedHalfway(before: Tree, after: Tree, es: seq<Entry>) {
    exists n: nat ::
      && n < |es| && !Reachable(before.files, es[n])
      && (forall i :: 0 <= i < n ==> Reachable(before.files, es[i]))
      && after == InstalledUpTo(before, es, n)
  }

  ghost predicate Distinct(items: seq<Item>, n: nat)
    requires n <= |items|
  {
    && (forall i :: 0 <= i < n ==> items[i].Item?)
    && (forall i, j :: 0 <= i < j < n ==> items[i].path != items[j].path)
  }

  /** The set of the first `n` items' paths; it has as many elements as there are items if they are distinct objects. */
  ghost predicate AreDeclared(items: seq<Item>, n: nat, declared: set<Option<string>>) {
    && n <= |items|
    && (forall p :: p in declared <==> exists j :: 0 <= j < n && items[j].Item? && items[j].path == p)
    && |declared| <= n
    && (|declared| == n <==> Distinct(items, n))
  }

  lemma DeclaredNext(items: seq<Item>, n: nat, declared: set<Option<string>>)
    requires n < |items| && AreDeclared(items, n, declared)
    ensures AreDeclared(items, n + 1, if items[n].Item? then declared + {items[n].path} else declared)
  {
    if items[n].Item? {
      var p := items[n].path;
      if p in declared {
        assert declared + {p} == declared;
      } else {
        assert forall j :: 0 <= j < n && items[j].Item? ==> items[j].path != p;
      }
    }
  }

  /** `declared != actual or len(declared) != len(entries)`. */
  method CheckListing(items: seq<Item>, contents: map<string, Content>) returns (ok: bool)
    ensures ok <==> Listed(items, contents)
  {
    var declared: set<Option<string>> := {};
    for i := 0 to |items|
      invariant AreDeclared(items, i, declared)
    {
      DeclaredNext(items, i, declared);
      if items[i].Item? {
        declared := declared + {items[i].path};
      }
    }
    ok := declared == NamesOf(contents) && |declared| == |items|;
    if ok {
      AcceptedListed(items, contents, declared);
    }
    if Listed(items, contents) {
      ListedAccepted(items, contents, declared);
    }
  }

  function NamesOf(contents: map<string, Content>): set<Option<string>> {
    set name | name in contents :: Some(name)
  }

  lemma AcceptedListed(items: seq<Item>, contents: map<string, Content>, declared: set<Option<string>>)
    requires AreDeclared(items, |items|, declared) && declared == NamesOf(contents) && |declared| == |items|
    ensures Listed(items, contents)
  {
    forall name | name in contents ensures exists i :: 0 <= i < |items| && items[i].path == Some(name) {
      assert Some(name) in declared;
    }
    forall i | 0 <= i < |items| ensures items[i].path.Some? && items[i].path.value in contents {
      assert items[i].path in declared;
    }
  }

  lemma ListedAccepted(items: seq<Item>, contents: map<string, Content>, declared: set<Option<string>>)
    requires AreDeclared(items, |items|, declared) && Listed(items, contents)
    ensures declared == NamesOf(contents) && |declared| == |items|
  {}

  method SumSizes(items: seq<Item>) returns (total: int)
    ensures total == TotalSize(items)
  {
    total := 0;
    for i := 0 to |items|
      invariant total == TotalSize(items[..i])
    {
      assert items[..i + 1][..i] == items[..i];
      if items[i].Item? && items[i].size.Some? {
        total := total + items[i].size.value;
      }
    }
    assert items[..|items|] == items;
  }

  /** The check of one image: Err names what is wrong, the missing identity first. */
  method CheckImage(relevant: bool, configured: bool, declared: string, actual: Option<string>)
    returns (missing: bool, other: bool)
    ensures !missing && !other <==> ImageAgrees(relevant, configured, declared, actual)
    ensures missing <==> relevant && configured && declared == ""
  {
    missing := relevant && configured && declared == "";
    other := relevant && declared != "" && actual != Some(declared);
  }

  method CheckManifest(a: Archive, host: Host) returns (r: Option<Refusal>)
    ensures r.None? <==> Acceptable(a, host)
    ensures Refuses(a, host, r) && (r == Some(TooLarge) ==> TotalSize(Items(a)) > 4294967296)
    ensures r != Some(FileInTheWay)
  {
    SkillKinds(a);
    PluginKinds(a);
    if a.manifest.files.Some? {
      SameNamesListed(a);
    }
    if !(0 < a.bytes <= MAX_ARCHIVE_BYTES) {
      return Some(BadArchiveSize);
    }
    if a.manifest.version != 1 || a.manifest.platform != host.platform || a.manifest.os != host.os {
      return Some(Incompatible);
    }
    if a.manifest.files.None? || |a.manifest.files.value| > MAX_ENTRIES {
      return Some(BadManifest);
    }
    var listed := CheckListing(Items(a), a.contents);
    if !listed {
      return Some(ContentsMismatch);
    }
    var kinds := set name | name in a.contents :: KindOf(name);
    var skill, plugin := kinds * SKILL_KINDS != {}, kinds * PLUGIN_KINDS != {};
    KindsAre(a.contents, kinds, SKILL_KINDS);
    KindsAre(a.contents, kinds, PLUGIN_KINDS);
    var noBase, otherBase := CheckImage(skill, host.scriptImage, a.manifest.baseImage, host.baseImageId);
    var noRuntime, otherRuntime := CheckImage(plugin, host.runtimeImage, a.manifest.runtimeImage, host.runtimeImageId);
    if noBase {
      return Some(BaseImageMissing);
    }
    if noRuntime {
      return Some(RuntimeImageMissing);
    }
    if otherBase {
      return Some(OtherBaseImage);
    }
    if otherRuntime {
      return Some(OtherRuntimeImage);
    }
    var total := SumSizes(Items(a));
    return if total > MAX_ARCHIVE_BYTES * 2 then Some(TooLarge) else None;
  }

  lemma KindsAre(contents: map<string, Content>, kinds: set<string>, wanted: set<string>)
    requires kinds == set name | name in contents :: KindOf(name)
    ensures kinds * wanted != {} <==> HasKind(contents, wanted)
  {
    if kinds * wanted != {} {
      var kind :| kind in kinds * wanted;
    }
    if HasKind(contents, wanted) {
      var name :| name in contents && KindOf(name) in wanted;
      assert KindOf(name) in kinds * wanted;
    }
  }

  /** The staging directory: files with the copied contents, and the directories made for them. */
  ghost predicate IsStaged(es: seq<Entry>, n: nat, files: map<Path, Content>, dirs: set<Path>) {
    && n <= |es| && files == Staged(es, n)
    && (forall p :: p in files <==> Names(es, n, p))
    && (forall p :: p in dirs <==> HasUnder(es, n, p))
  }

  ghost predicate Names(es: seq<Entry>, n: nat, p: Path) {
    exists i :: 0 <= i < n && i < |es| && es[i].path == p
  }

  ghost predicate HasUnder(es: seq<Entry>, n: nat, p: Path) {
    exists i :: 0 <= i < n && i < |es| && IsAncestor(p, es[i].path)
  }

  ghost predicate NoClashUpTo(es: seq<Entry>, n: nat) {
    n <= |es| && forall i, j :: 0 <= i < n && 0 <= j < n ==> !IsAncestor(es[i].path, es[j].path)
  }

  predicate HasPlace(p: Path, files: map<Path, Content>, dirs: set<Path>) {
    p !in dirs && Ancestors(p) * files.Keys == {}
  }

  /** One entry can be written into the staging directory exactly when it clashes with none before it. */
  lemma ClashNext(es: seq<Entry>, n: nat, files: map<Path, Content>, dirs: set<Path>)
    requires n < |es| && IsStaged(es, n, files, dirs) && NoClashUpTo(es, n)
    ensures HasPlace(es[n].path, files, dirs) <==> NoClashUpTo(es, n + 1)
  {
    var p := es[n].path;
    if NoClashUpTo(es, n + 1) {
      assert forall i :: 0 <= i < n ==> !IsAncestor(es[i].path, p);
      forall a | a in Ancestors(p) ensures a !in files {
        assert !Names(es, n, a);
      }
      assert forall i :: 0 <= i < n ==> !IsAncestor(p, es[i].path);
      assert !HasUnder(es, n, p);
    }
    if HasPlace(p, files, dirs) {
      assert !HasUnder(es, n, p);
      forall i | 0 <= i < n ensures !IsAncestor(es[i].path, p) {
        assert Names(es, n, es[i].path);
        assert es[i].path !in Ancestors(p) * files.Keys;
      }
    }
  }

  lemma StagedNext(es: seq<Entry>, n: nat, files: map<Path, Content>, dirs: set<Path>)
    requires n < |es| && IsStaged(es, n, files, dirs)
    ensures IsStaged(es, n + 1, files[es[n].path := es[n].content], dirs + Ancestors(es[n].path))
  {
    var m, path := n + 1, es[n].path;
    var files', dirs' := files[path := es[n].content], dirs + Ancestors(path);
    forall p ensures p in dirs' <==> HasUnder(es, m, p) {
      assert HasUnder(es, m, p) <==> HasUnder(es, n, p) || IsAncestor(p, path);
    }
    forall p ensures p in files' <==> Names(es, m, p) {
      assert Names(es, m, p) <==> Names(es, n, p) || path == p;
    }
  }

  /** The checks of one entry, given what has been staged before it. */
  method CheckEntry(e: Entry, hash: Content -> string, files: map<Path, Content>, dirs: set<Path>)
    returns (r: Option<Refusal>)
    ensures r.None? <==> EntryOk(e, hash) && HasPlace(e.path, files, dirs)
    ensures r != Some(FileInTheWay)
  {
    if !IsPackagePath(e.path) {
      return Some(BadPath);
    }
    if |e.content| > MAX_ENTRY_BYTES || e.size != Some(|e.content|) {
      return Some(BadEntrySize);
    }
    if e.path in dirs || Ancestors(e.path) * files.Keys != {} {
      return Some(StagingClash);
    }
    if e.sha256 != Some(hash(e.content)) {
      return Some(ChecksumMismatch);
    }
    return None;
  }

  /** The first `n` entries are verified and staged. */
  ghost predicate StagedSoFar(es: seq<Entry>, n: nat, files: map<Path, Content>, dirs: set<Path>,
      hash: Content -> string) {
    IsStaged(es, n, files, dirs) && NoClashUpTo(es, n) && forall j :: 0 <= j < n ==> EntryOk(es[j], hash)
  }

  lemma StageStep(es: seq<Entry>, n: nat, files: map<Path, Content>, dirs: set<Path>, hash: Content -> string)
    requires n < |es| && StagedSoFar(es, n, files, dirs, hash)
    ensures if EntryOk(es[n], hash) && HasPlace(es[n].path, files, dirs)
      then StagedSoFar(es, n + 1, files[es[n].path := es[n].content], dirs + Ancestors(es[n].path), hash)
      else !Verified(es, hash)
  {
    ClashNext(es, n, files, dirs);
    StagedNext(es, n, files, dirs);
  }

  /** First pass: every entry is checked, copied aside and hashed; the store is not touched. */
  method Stage(es: seq<Entry>, hash: Content -> string) returns (r: Result<map<Path, Content>, Refusal>)
    ensures r.Ok? <==> Verified(es, hash)
    ensures r.Ok? ==> r.value == Staged(es, |es|)
    ensures r.Err? ==> r.error != FileInTheWay
  {
    var files: map<Path, Content>, dirs: set<Path> := map[], {};
    for i := 0 to |es|
      invariant StagedSoFar(es, i, files, dirs, hash)
    {
      StageStep(es, i, files, dirs, hash);
      var bad := CheckEntry(es[i], hash, files, dirs);
      if bad.Some? {
        return Err(bad.value);
      }
      files, dirs := files[es[i].path := es[i].content], dirs + Ancestors(es[i].path);
    }
    return Ok(files);
  }

  /** The directories of the next target can be made now exactly when they could have been made at the start. */
  lemma WayIsClear(t: Tree, es: seq<Entry>, n: nat)
    requires n < |es| && NoClash(es)
    ensures Ancestors(es[n].path) * InstalledUpTo(t, es, n).files.Keys == {} <==> Reachable(t.files, es[n])
  {
    ReachableAfter(t, es, n, n);
    NoAncestorFile(InstalledUpTo(t, es, n).files, es[n]);
  }

  lemma NoAncestorFile(files: map<Path, Content>, e: Entry)
    ensures Ancestors(e.path) * files.Keys == {} <==> Reachable(files, e)
  {
    if Ancestors(e.path) * files.Keys == {} {
      forall a | IsAncestor(a, e.path) ensures a !in files {
        assert a in Ancestors(e.path);
        assert a !in Ancestors(e.path) * files.Keys;
      }
    } else {
      var a :| a in Ancestors(e.path) * files.Keys;
      assert IsAncestor(a, e.path) && a in files;
    }
  }

  /** The first `n` entries are installed, and there was room for all of them. */
  ghost predicate InstalledSoFar(before: Tree, es: seq<Entry>, n: nat, now: Tree) {
    n <= |es| && now == InstalledUpTo(before, es, n) && forall j :: 0 <= j < n ==> Reachable(before.files, es[j])
  }

  lemma InstallStep(before: Tree, es: seq<Entry>, n: nat, now: Tree)
    requires n < |es| && NoClash(es) && InstalledSoFar(before, es, n, now)
    ensures es[n].path in Staged(es, |es|)
    ensures var p, staged := es[n].path, Staged(es, |es|);
      if Ancestors(p) * now.files.Keys == {}
      then InstalledSoFar(before, es, n + 1,
             Tree(if p in now.files then now.files else now.files[p := staged[p]], now.dirs + Ancestors(p)))
      else !AllReachable(before, es) && StoppedHalfway(before, now, es)
  {
    WayIsClear(before, es, n);
    StagedHas(es, |es|, n);
  }

  class PackageStore {
    var files: map<Path, Content>
    var dirs: set<Path>

    function View(): Tree
      reads this
    {
      Tree(files, dirs)
    }

    ghost predicate Valid()
      reads this
    {
      WellFormed(View())
    }

    /** An empty root. */
    constructor ()
      ensures View() == EMPTY && Valid()
    {
      files, dirs := EMPTY.files, EMPTY.dirs;
      new;
      EmptyWellFormed();
    }

    /** Second pass: every target is new, or is a file with the declared digest. */
    method CheckConflicts(es: seq<Entry>, hash: Content -> string) returns (r: Option<Refusal>)
      ensures r.None? <==> NoConflict(View(), es, hash)
      ensures r.Some? ==> r.value == Conflict || r.value == DirectoryInTheWay
    {
      for i := 0 to |es|
        invariant forall j :: 0 <= j < i ==> TargetOk(View(), es[j], hash)
      {
        if es[i].path in dirs {
          return Some(DirectoryInTheWay);
        }
        if es[i].path in files && es[i].sha256 != Some(hash(files[es[i].path])) {
          return Some(Conflict);
        }
      }
      return None;
    }

    /** Third pass: each staged file moves into place unless its target is there. */
    method Install(es: seq<Entry>, staged: map<Path, Content>) returns (r: Option<Refusal>)
      requires staged == Staged(es, |es|) && NoClash(es)
      modifies this
      ensures r.None? <==> AllReachable(old(View()), es)
      ensures r.None? ==> View() == Installed(old(View()), es)
      ensures r.Some? ==> r.value == FileInTheWay && StoppedHalfway(old(View()), View(), es)
    {
      ghost var before := View();
      for i := 0 to |es|
        invariant InstalledSoFar(before, es, i, View())
      {
        InstallStep(before, es, i, View());
        if Ancestors(es[i].path) * files.Keys != {} {
          return Some(FileInTheWay);
        }
        InstallOne(es[i].path, staged);
      }
      return None;
    }

    /** `mkdir(parents=True)`, and `os.replace` if nothing is at the target. */
    method InstallOne(target: Path, staged: map<Path, Content>)
      requires target in staged
      modifies this
      ensures files == if target in old(files) then old(files) else old(files)[target := staged[target]]
      ensures dirs == old(dirs) + Ancestors(target)
    {
      dirs := dirs + Ancestors(target);
      if target !in files {
        files := files[target := staged[target]];
      }
    }

    /** The manifest list and the entries, file by file. */
    method CollectFiles(selected: Option<set<string>>, listing: seq<Path>, hash: Content -> string)
      returns (items: seq<Item>, contents: map<string, Content>)
      ensures items == ExportItems(View(), selected, listing, hash)
      ensures contents == ExportContents(View(), selected, listing)
    {
      items, contents := [], map[];
      for i := 0 to |listing|
        invariant items == ExportItems(View(), selected, listing[..i], hash)
        invariant contents == ExportContents(View(), selected, listing[..i])
      {
        assert listing[..i + 1][..i] == listing[..i];
        var p := listing[i];
        if p !in files || p == [] || p[|p| - 1] == "lock" || "partial" in p {
          continue;
        }
        if selected.Some? && Join(p, '/') !in selected.value {
          continue;
        }
        items := items + [Item(Some(Join(p, '/')), Some(|files[p]|), Some(hash(files[p])))];
        contents := contents[Join(p, '/') := files[p]];
      }
      assert listing[..|listing|] == listing;
    }

    /** Export: the archive holds exactly the eligible files, or nothing is left behind. */
    method ExportTo(selected: Option<set<string>>, listing: seq<Path>, host: Host, hash: Content -> string, bytes: nat)
      returns (r: Result<Archive, Refusal>)
      requires Valid() && IsListing(View(), listing)
      ensures r.Ok? <==>
        && (selected.Some? ==> forall name :: name in selected.value ==> Parts(name) in files)
        && ImagesKnown(host) && bytes <= MAX_ARCHIVE_BYTES
      ensures r.Ok? ==> r.value == Exported(View(), selected, listing, host, hash, bytes)
    {
      if selected.Some? && exists name :: name in selected.value && Parts(name) !in files {
        return Err(RecordFilesMissing);
      }
      if host.scriptImage && (host.baseImageId.None? || host.baseImageId.value == "") {
        return Err(BaseImageMissing);
      }
      if host.runtimeImage && (host.runtimeImageId.None? || host.runtimeImageId.value == "") {
        return Err(RuntimeImageMissing);
      }
      var items, contents := CollectFiles(selected, listing, hash);
      if bytes > MAX_ARCHIVE_BYTES {
        return Err(BadArchiveSize);
      }
      var base := if host.scriptImage then host.baseImageId.value else "";
      var runtime := if host.runtimeImage then host.runtimeImageId.value else "";
      return Ok(Archive(bytes, Manifest(1, host.platform, host.os, base, runtime, Some(items)), contents));
    }

    /**
     Nothing in the store changes unless every entry has been verified and every
     target has been checked; then either all entries are installed, or the
     installation stops at the first one whose directory a file is in the way of.
    */
    method ImportArchive(a: Archive, host: Host, hash: Content -> string) returns (r: Result<(), Refusal>)
      requires Valid()
      modifies this
      ensures Valid()
      ensures r.Ok? <==> Imports(old(View()), a, host, hash)
      ensures r.Ok? <==> Fits(a, host) && Sound(a, hash) && HasRoomFor(old(View()), a, hash)
      ensures View() != old(View()) ==> Checked(old(View()), a, host, hash)
      ensures r.Ok? ==> View() == Installed(old(View()), Entries(Items(a), a.contents))
      ensures r == Err(FileInTheWay) <==> Checked(old(View()), a, host, hash) && !Imports(old(View()), a, host, hash)
      ensures r == Err(FileInTheWay) ==> StoppedHalfway(old(View()), View(), Entries(Items(a), a.contents))
    {
      ImportsExactly(View(), a, host, hash);
      var bad := CheckManifest(a, host);
      if bad.Some? {
        return Err(bad.value);
      }
      var es := Entries(Items(a), a.contents);
      var staged := Stage(es, hash);
      if staged.Err? {
        return Err(staged.error);
      }
      var conflict := CheckConflicts(es, hash);
      if conflict.Some? {
        return Err(conflict.value);
      }
      EntryNamesOk(a, hash);
      ghost var before := View();
      var failed := Install(es, staged.value);
      StillWellFormed(before, View(), es, hash, failed.None?);
      return if failed.Some? then Err(FileInTheWay) else Ok(());
    }
  }

  lemma StillWellFormed(before: Tree, after: Tree, es: seq<Entry>, hash: Content -> string, done: bool)
    requires WellFormed(before) && Verified(es, hash) && NamesOk(es) && NoConflict(before, es, hash)
    requires if done then AllReachable(before, es) && after == Installed(before, es)
      else StoppedHalfway(before, after, es)
    ensures WellFormed(after)
  {
    var n: nat := |es|;
    if !done {
      n :| n < |es| && !Reachable(before.files, es[n]) && (forall i :: 0 <= i < n ==> Reachable(before.files, es[i]))
        && after == InstalledUpTo(before, es, n);
    }
    assert CanInstall(before, es, n, hash);
    InstalledWellFormed(before, es, n, hash);
  }

  lemma KindIsName(kind: string)
    requires kind in KINDS || kind == "partial"
    ensures IsName(kind)
  {}

  /** A directory of the empty store is a kind, or the partial directory of one. */
  lemma EmptyDir(p: Path)
    requires p in EMPTY.dirs
    ensures |p| == 1 || (|p| == 2 && p[1] == "partial")
    ensures p[0] in KINDS
  {}

  lemma EmptyWellFormed()
    ensures WellFormed(EMPTY)
  {
    forall p | p in EMPTY.dirs ensures p != [] && AllNames(p) {
      EmptyDir(p);
      KindIsName(p[0]);
      KindIsName("partial");
    }
    forall p, a | p in EMPTY.dirs && IsAncestor(a, p) ensures a in EMPTY.dirs {
      EmptyDir(p);
      assert a == [p[0]];
    }
  }
}
