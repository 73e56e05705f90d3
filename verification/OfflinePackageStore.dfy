/**
 The offline package store (services/sandbox-manager/app/offline_package_store.py):
 a tree of package files, and the archives that are exported from it and imported
 into it. Paths are sequences of names, as pathlib sees them; file contents are
 sequences of bytes, and the digest is a function `hash` of the content.
*/
module OfflinePackageStore {
  import opened Common
  import opened Text

  // ---------------------------------------------------------------- paths

  type Path = seq<string>

  predicate IsKept(name: string) {
    name != "" && name != "."
  }

  /** `Path(relative).parts`: empty names and dots vanish, a leading slash becomes a name of its own. */
  function Parts(relative: string): Path {
    var names := Filter(IsKept, Split(relative, '/'));
    if relative == "" || relative[0] != '/' then names
    else if |relative| >= 2 && relative[1] == '/' && (|relative| == 2 || relative[2] != '/') then ["//"] + names
    else ["/"] + names
  }

  /** A name a file system can hold. */
  predicate IsName(name: string) {
    IsKept(name) && name != ".." && '/' !in name
  }

  predicate AllNames(p: Path) {
    forall name :: name in p ==> IsName(name)
  }

  /** `as_posix` and `parts` undo each other on paths made of names. */
  lemma PartsOfJoin(p: Path)
    requires p != [] && AllNames(p)
    ensures Parts(Join(p, '/')) == p
  {
    forall name | name in p ensures '/' !in name && IsKept(name) {
      assert IsName(name);
    }
    SplitJoin(p, '/');
    FilterAll(IsKept, p);
    assert p[0] in p && Join(p, '/')[0] == p[0][0];
    assert p[0][0] in p[0];
  }

  const KINDS: set<string> :=
    {"pip", "npm", "pnpm", "pnpm-cache", "apt-archives", "apt-lists", "plugin-archives", "collections"}

  const SKILL_KINDS: set<string> := {"pip", "npm", "apt-archives", "apt-lists"}
  const PLUGIN_KINDS: set<string> := {"pnpm", "pnpm-cache", "plugin-archives"}

  const MAX_ARCHIVE_BYTES := 2 * 1024 * 1024 * 1024
  const MAX_ENTRY_BYTES := MAX_ARCHIVE_BYTES
  const MAX_ENTRIES := 100000

  predicate IsPackagePath(p: Path) {
    |p| >= 2 && p[0] in KINDS && "" !in p && "." !in p && ".." !in p
  }

  predicate IsAncestor(a: Path, p: Path) {
    0 < |a| < |p| && p[..|a|] == a
  }

  function Ancestors(p: Path): (r: set<Path>)
    ensures forall a :: a in r <==> IsAncestor(a, p)
  {
    set k | 0 < k < |p| :: p[..k]
  }

  // ---------------------------------------------------------------- the tree

  type Content = seq<bv8>

  /** Files with their contents, and directories, below the root of the store. */
  datatype Tree = Tree(files: map<Path, Content>, dirs: set<Path>)

  /** Every file and directory sits in directories, and the kinds are there. */
  ghost predicate WellFormed(t: Tree) {
    && (forall p :: p in t.files ==> IsPackagePath(p) && p !in t.dirs)
    && (forall p, a :: p in t.files && IsAncestor(a, p) ==> a in t.dirs)
    && (forall p, a :: p in t.dirs && IsAncestor(a, p) ==> a in t.dirs)
    && (forall p :: p in t.dirs ==> p != [] && AllNames(p))
    && (forall p :: p in t.files ==> AllNames(p))
    && (forall kind :: kind in KINDS ==> [kind] in t.dirs)
  }

  /** The store as the constructor leaves an empty root. */
  const EMPTY := Tree(map[], (set kind | kind in KINDS :: [kind]) + {["apt-archives", "partial"],
                                                                     ["apt-lists", "partial"]})

  // ---------------------------------------------------------------- archives

  /** One element of the manifest's list; fields that are missing are None. */
  datatype Item = NotAnObject | Item(path: Option<string>, size: Option<int>, sha256: Option<string>)

  /** An empty image identity stands for a missing one. */
  datatype Manifest = Manifest(
    version: int, platform: string, os: string, baseImage: string, runtimeImage: string, files: Option<seq<Item>>)

  /** The size of the file, the manifest, and the other entries by name. */
  datatype Archive = Archive(bytes: nat, manifest: Manifest, contents: map<string, Content>)

  /** The machine, which images are configured, and what the engine says they are. */
  datatype Host = Host(
    platform: string, os: string, scriptImage: bool, runtimeImage: bool,
    baseImageId: Option<string>, runtimeImageId: Option<string>)

  function Items(a: Archive): seq<Item> {
    if a.manifest.files.Some? then a.manifest.files.value else []
  }

  /** The manifest lists exactly the entries of the archive, each of them once. */
  ghost predicate Listed(items: seq<Item>, contents: map<string, Content>) {
    && (forall i :: 0 <= i < |items| ==> items[i].Item? && items[i].path.Some? && items[i].path.value in contents)
    && (forall i, j :: 0 <= i < j < |items| ==> items[i].path != items[j].path)
    && (forall name :: name in contents ==> exists i :: 0 <= i < |items| && items[i].path == Some(name))
  }

  /** The first piece of an entry name, as the manifest check cuts it. */
  function KindOf(name: string): string {
    Split(name, '/')[0]
  }

  predicate HasKind(contents: map<string, Content>, kinds: set<string>) {
    exists name :: name in contents && KindOf(name) in kinds
  }

  /** The check of one image: an identity is required where an image is configured, and must be the host's. */
  predicate ImageAgrees(relevant: bool, configured: bool, declared: string, actual: Option<string>) {
    relevant ==> (configured ==> declared != "") && (declared != "" ==> actual == Some(declared))
  }

  function TotalSize(items: seq<Item>): int {
    if items == [] then 0
    else
      var last := items[|items| - 1];
      TotalSize(items[..|items| - 1]) + (if last.Item? && last.size.Some? then last.size.value else 0)
  }

  /** Everything that is checked before the first entry is unpacked. */
  ghost predicate Acceptable(a: Archive, host: Host) {
    && 0 < a.bytes <= MAX_ARCHIVE_BYTES
    && a.manifest.version == 1 && a.manifest.platform == host.platform && a.manifest.os == host.os
    && a.manifest.files.Some? && |Items(a)| <= MAX_ENTRIES
    && Listed(Items(a), a.contents)
    && ImageAgrees(HasKind(a.contents, SKILL_KINDS), host.scriptImage, a.manifest.baseImage, host.baseImageId)
    && ImageAgrees(HasKind(a.contents, PLUGIN_KINDS), host.runtimeImage, a.manifest.runtimeImage, host.runtimeImageId)
    && TotalSize(Items(a)) <= MAX_ARCHIVE_BYTES * 2
  }

  // ---------------------------------------------------------------- entries

  /** An accepted archive as a list of entries. */
  datatype Entry = Entry(path: Path, content: Content, size: Option<int>, sha256: Option<string>)

  function EntryOf(item: Item, contents: map<string, Content>): Entry
    requires item.Item? && item.path.Some? && item.path.value in contents
  {
    Entry(Parts(item.path.value), contents[item.path.value], item.size, item.sha256)
  }

  function Entries(items: seq<Item>, contents: map<string, Content>): (r: seq<Entry>)
    requires forall i :: 0 <= i < |items| ==> items[i].Item? && items[i].path.Some? && items[i].path.value in contents
    ensures |r| == |items|
  {
    seq(|items|, i requires 0 <= i < |items| => EntryOf(items[i], contents))
  }

  predicate EntryOk(e: Entry, hash: Content -> string) {
    && IsPackagePath(e.path) && |e.content| <= MAX_ENTRY_BYTES
    && e.size == Some(|e.content|) && e.sha256 == Some(hash(e.content))
  }

  /** No entry is a directory of another one, so that all of them can be unpacked side by side. */
  ghost predicate NoClash(es: seq<Entry>) {
    forall i, j :: 0 <= i < |es| && 0 <= j < |es| ==> !IsAncestor(es[i].path, es[j].path)
  }

  ghost predicate Verified(es: seq<Entry>, hash: Content -> string) {
    (forall i :: 0 <= i < |es| ==> EntryOk(es[i], hash)) && NoClash(es)
  }

  /** The conflict check: a target is new, or a file with the declared digest. */
  predicate TargetOk(t: Tree, e: Entry, hash: Content -> string) {
    e.path !in t.dirs && (e.path in t.files ==> e.sha256 == Some(hash(t.files[e.path])))
  }

  ghost predicate NoConflict(t: Tree, es: seq<Entry>, hash: Content -> string) {
    forall i :: 0 <= i < |es| ==> TargetOk(t, es[i], hash)
  }

  /** The directories of the target can be made: no file of the store is in the way. */
  ghost predicate Reachable(files: map<Path, Content>, e: Entry) {
    forall a :: IsAncestor(a, e.path) ==> a !in files
  }

  ghost predicate AllReachable(t: Tree, es: seq<Entry>) {
    forall i :: 0 <= i < |es| ==> Reachable(t.files, es[i])
  }

  /** The staging directory after the first `n` entries: a later entry for the same path wins. */
  function Staged(es: seq<Entry>, n: nat): map<Path, Content>
    requires n <= |es|
  {
    if n == 0 then map[] else Staged(es, n - 1)[es[n - 1].path := es[n - 1].content]
  }

  /** The tree after the first `n` entries have been installed; a file that is there is left alone. */
  function InstalledUpTo(t: Tree, es: seq<Entry>, n: nat): Tree
    requires n <= |es|
    decreases n
  {
    if n == 0 then t
    else
      var before := InstalledUpTo(t, es, n - 1);
      var e := es[n - 1];
      StagedHas(es, |es|, n - 1);
      Tree(if e.path in before.files then before.files else before.files[e.path := Staged(es, |es|)[e.path]],
           before.dirs + Ancestors(e.path))
  }

  function Installed(t: Tree, es: seq<Entry>): Tree {
    InstalledUpTo(t, es, |es|)
  }

  /** All checks before the installation, in the order they are made. */
  ghost predicate Checked(t: Tree, a: Archive, host: Host, hash: Content -> string) {
    && Acceptable(a, host)
    && Verified(Entries(Items(a), a.contents), hash)
    && NoConflict(t, Entries(Items(a), a.contents), hash)
  }

  /** The import succeeds. */
  ghost predicate Imports(t: Tree, a: Archive, host: Host, hash: Content -> string) {
    Checked(t, a, host, hash) && AllReachable(t, Entries(Items(a), a.contents))
  }

  // ---------------------------------------------------------------- what is staged and installed

  /** The staged content of a path is that of its last entry. */
  predicate IsLastFor(es: seq<Entry>, n: nat, p: Path, i: nat) {
    i < n <= |es| && es[i].path == p && forall j :: i < j < n ==> es[j].path != p
  }

  lemma {:induction false} StagedHas(es: seq<Entry>, n: nat, i: nat)
    requires i < n <= |es|
    ensures es[i].path in Staged(es, n)
  {
    if i < n - 1 {
      StagedHas(es, n - 1, i);
    }
  }

  lemma {:induction false} StagedLast(es: seq<Entry>, n: nat, p: Path) returns (i: nat)
    requires n <= |es| && p in Staged(es, n)
    ensures IsLastFor(es, n, p, i) && Staged(es, n)[p] == es[i].content
  {
    if es[n - 1].path == p {
      i := n - 1;
    } else {
      i := StagedLast(es, n - 1, p);
    }
  }

  /** What one installed file holds, and which files there are. */
  lemma {:induction false} InstalledFiles(t: Tree, es: seq<Entry>, n: nat, p: Path)
    requires n <= |es|
    ensures p in InstalledUpTo(t, es, n).files <==> p in t.files || exists i :: 0 <= i < n && es[i].path == p
    ensures p in t.files ==> InstalledUpTo(t, es, n).files[p] == t.files[p]
    ensures p in InstalledUpTo(t, es, n).files && p !in t.files ==>
      p in Staged(es, |es|) && InstalledUpTo(t, es, n).files[p] == Staged(es, |es|)[p]
    decreases n
  {
    if n > 0 {
      InstalledFiles(t, es, n - 1, p);
      StagedHas(es, |es|, n - 1);
      if es[n - 1].path == p {
        assert exists i :: 0 <= i < n && es[i].path == p;
      }
    }
  }

  lemma {:induction false} InstalledDirs(t: Tree, es: seq<Entry>, n: nat, p: Path)
    requires n <= |es|
    ensures p in InstalledUpTo(t, es, n).dirs <==> p in t.dirs || exists i :: 0 <= i < n && IsAncestor(p, es[i].path)
    decreases n
  {
    if n > 0 {
      InstalledDirs(t, es, n - 1, p);
      if IsAncestor(p, es[n - 1].path) {
        assert exists i :: 0 <= i < n && IsAncestor(p, es[i].path);
      }
    }
  }
}
